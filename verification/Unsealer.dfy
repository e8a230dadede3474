/** Submitting unseal key shares, one after the other, to a server that counts
    them. */
module Unsealer {
  import opened Wrappers

  /** The server: how many shares it needs, and how many count so far. */
  datatype Seal = Seal(threshold: nat, progress: nat, sealed: bool)

  /** How the server takes one share: it counts, it repeats one that counted, it
      is refused, it completes a set that does not open (and all are forgotten),
      or it counts but the answer is lost. */
  datatype Take = Counted | Repeated | Refused | Spoiled | AnswerLost

  predicate Answered(t: Take) {
    t.Counted? || t.Repeated?
  }

  function Submitted(s: Seal, t: Take): Seal {
    if !s.sealed || t.Repeated? || t.Refused? then s
    else if t.Spoiled? then s.(progress := 0)
    else if s.progress + 1 >= s.threshold then Seal(s.threshold, 0, false)
    else s.(progress := s.progress + 1)
  }

  /** What becomes of the i-th submission from now on. */
  function TakeOf(script: seq<Take>, i: nat): Take {
    if i < |script| then script[i] else Counted
  }

  /** The server after n submissions. */
  function After(s: Seal, script: seq<Take>, n: nat): Seal {
    if n == 0 then s else Submitted(After(s, script, n - 1), TakeOf(script, n - 1))
  }

  /** The first n submissions are answered, and the server stays sealed. */
  predicate StaysSealed(s: Seal, script: seq<Take>, n: nat) {
    forall i | 0 <= i < n :: Answered(TakeOf(script, i)) && After(s, script, i + 1).sealed
  }

  /** How many of the first n submissions count. */
  function Counting(script: seq<Take>, n: nat): (k: nat)
    ensures k <= n
  {
    if n == 0 then 0 else Counting(script, n - 1) + (if TakeOf(script, n - 1).Counted? then 1 else 0)
  }

  /** The server after the submission at this index failed: what counted so far
      is forgotten if anything was submitted before it. */
  function AfterFailure(s: Seal, script: seq<Take>, index: nat, resetWorks: bool): Seal {
    var failed := After(s, script, index + 1);
    if index > 0 && resetWorks && failed.sealed then failed.(progress := 0) else failed
  }

  class Server {
    var seal: Seal
    var script: seq<Take>            // what becomes of the submissions to come
    var resetWorks: bool
    var posted: seq<string>

    constructor (seal: Seal, script: seq<Take>, resetWorks: bool)
      ensures this.seal == seal && this.script == script && this.resetWorks == resetWorks && posted == []
    {
      this.seal, this.script, this.resetWorks, this.posted := seal, script, resetWorks, [];
    }

    /** The seal status after the share, or an error. */
    method Submit(key: string) returns (status: Option<Seal>)
      modifies this
      ensures seal == Submitted(old(seal), TakeOf(old(script), 0)) && posted == old(posted) + [key]
      ensures script == (if old(script) == [] then [] else old(script)[1..]) && resetWorks == old(resetWorks)
      ensures status == (match TakeOf(old(script), 0)
        case Counted => Some(seal)
        case Repeated => Some(seal)
        case _ => None)
    {
      var t := TakeOf(script, 0);
      seal, posted := Submitted(seal, t), posted + [key];
      script := if script == [] then [] else script[1..];
      status := if Answered(t) then Some(seal) else None;
    }

    /** Forget the shares that count so far. */
    method Reset()
      modifies this`seal
      ensures seal == if resetWorks && old(seal.sealed) then old(seal).(progress := 0) else old(seal)
    {
      if resetWorks && seal.sealed {
        seal := seal.(progress := 0);
      }
    }
  }

  datatype Result = Result(sealed: bool, progress: nat, threshold: nat, submitted: nat)

  datatype Outcome =
    | NoClient
    | NoKeys
    | Opened(result: Result)
    | ShareFailed(result: Result, index: nat)
    | StillSealed(result: Result)

  lemma {:induction false} NothingSubmitted(s: Seal, script: seq<Take>)
    ensures After(s, script, 0) == s && StaysSealed(s, script, 0)
  {
  }

  lemma {:induction false} OneMore(s: Seal, script: seq<Take>, i: nat)
    ensures After(s, script, i + 1) == Submitted(After(s, script, i), TakeOf(script, i))
    ensures StaysSealed(s, script, i + 1) <==>
      StaysSealed(s, script, i) && Answered(TakeOf(script, i)) && After(s, script, i + 1).sealed
    ensures After(s, script, i).threshold == s.threshold
  {
    if i > 0 {
      OneMore(s, script, i - 1);
    }
  }

  /** Submit shares until the server reports itself unsealed or they run out. */
  method Unseal(api: Server?, keys: seq<string>) returns (outcome: Outcome)
    modifies api
    ensures api == null <==> outcome == NoClient
    ensures api != null && keys == [] ==>
      outcome == NoKeys && api.posted == old(api.posted) && api.seal == old(api.seal)
    ensures api != null && keys != [] ==>
      var n := |api.posted| - |old(api.posted)|;
      var s, script := old(api.seal), old(api.script);
      && 1 <= n <= |keys| && api.posted == old(api.posted) + keys[..n]
      && StaysSealed(s, script, n - 1)
      && match outcome
         case Opened(result) =>
           && Answered(TakeOf(script, n - 1)) && api.seal == After(s, script, n) && !api.seal.sealed
           && result == Result(false, api.seal.progress, api.seal.threshold, n)
         case ShareFailed(result, index) =>
           && index == n - 1 && !Answered(TakeOf(script, index))
           && result == Result(true, 0, if index > 0 then s.threshold else 0, index)
           && api.seal == AfterFailure(s, script, index, old(api.resetWorks))
         case StillSealed(result) =>
           && n == |keys| && Answered(TakeOf(script, n - 1)) && api.seal == After(s, script, n) && api.seal.sealed
           && result == Result(true, api.seal.progress, api.seal.threshold, n)
         case _ => false
  {
    if api == null {
      return NoClient;
    }
    if keys == [] {
      return NoKeys;
    }
    hide Submitted, After, StaysSealed;
    var result := Result(true, 0, 0, 0);
    NothingSubmitted(api.seal, api.script);
    ghost var s, script := api.seal, api.script;
    for i := 0 to |keys|
      invariant api.seal == After(s, script, i) && StaysSealed(s, script, i)
      invariant api.script == (if i <= |script| then script[i..] else []) && api.resetWorks == old(api.resetWorks)
      invariant api.posted == old(api.posted) + keys[..i]
      invariant result.submitted == i && result.sealed
      invariant i > 0 ==> result == Result(true, api.seal.progress, api.seal.threshold, i)
      invariant i == 0 ==> result == Result(true, 0, 0, 0)
    {
      OneMore(s, script, i);
      var status := api.Submit(keys[i]);
      assert keys[..i + 1] == keys[..i] + [keys[i]];
      if status.None? {
        if result.submitted > 0 {
          api.Reset();
          result := result.(progress := 0);
        }
        return ShareFailed(result, i);
      }
      result := Result(status.value.sealed, status.value.progress, status.value.threshold, result.submitted + 1);
      if !status.value.sealed {
        return Opened(result);
      }
    }
    assert keys[..|keys|] == keys;
    return StillSealed(result);
  }

  // ---- What that comes to ----

  predicate AllAnswered(script: seq<Take>, n: nat) {
    forall i | 0 <= i < n :: Answered(TakeOf(script, i))
  }

  /** While every share is answered, the server stays sealed exactly as long as
      too few of them count, and its progress is how many do. */
  lemma {:induction false} SealedWhileTooFew(s: Seal, script: seq<Take>, n: nat)
    requires s.sealed && s.progress < s.threshold && AllAnswered(script, n)
    ensures StaysSealed(s, script, n) <==> s.progress + Counting(script, n) < s.threshold
    ensures StaysSealed(s, script, n) ==> After(s, script, n) == s.(progress := s.progress + Counting(script, n))
    ensures !StaysSealed(s, script, n) ==> After(s, script, n) == Seal(s.threshold, 0, false)
  {
    if n > 0 {
      SealedWhileTooFew(s, script, n - 1);
      OneMore(s, script, n - 1);
    }
  }

  /** When Unseal opens the server it has submitted the shortest prefix that
      does: as many shares count as were missing, and one fewer does not suffice. */
  lemma {:induction false} ShortestPrefixOpens(s: Seal, script: seq<Take>, n: nat)
    requires s.sealed && s.progress < s.threshold && AllAnswered(script, n) && n > 0
    ensures StaysSealed(s, script, n - 1) && !After(s, script, n).sealed <==>
      s.progress + Counting(script, n) == s.threshold && TakeOf(script, n - 1).Counted?
  {
    SealedWhileTooFew(s, script, n - 1);
    SealedWhileTooFew(s, script, n);
    CountingGrows(script, n - 1, n);
  }

  lemma {:induction false} CountingGrows(script: seq<Take>, m: nat, n: nat)
    requires m <= n
    ensures Counting(script, m) <= Counting(script, n)
    decreases n - m
  {
    if m < n {
      CountingGrows(script, m, n - 1);
    }
  }

  /** When every share counts: the server opens with the missing number of shares
      and no other, and fewer than that only add to its progress. */
  lemma {:induction false} MissingSharesOpen(s: Seal, script: seq<Take>, n: nat)
    requires s.sealed && s.progress < s.threshold && n > 0
    requires forall i | 0 <= i < n :: TakeOf(script, i).Counted?
    ensures StaysSealed(s, script, n - 1) && !After(s, script, n).sealed <==> n == s.threshold - s.progress
    ensures n < s.threshold - s.progress ==>
      StaysSealed(s, script, n) && After(s, script, n) == s.(progress := s.progress + n)
  {
    AllCount(script, n);
    ShortestPrefixOpens(s, script, n);
    SealedWhileTooFew(s, script, n);
  }

  lemma {:induction false} AllCount(script: seq<Take>, n: nat)
    requires forall i | 0 <= i < n :: TakeOf(script, i).Counted?
    ensures Counting(script, n) == n
  {
    if n > 0 {
      AllCount(script, n - 1);
    }
  }

  /** What a failed call leaves. At the very first share: the server as it was, if
      and only if the share was refused outright (or nothing counted and the set
      was forgotten). After an accepted share: no progress, which is what the
      result reports, if and only if the reset worked, the server had forgotten
      the set, the share whose answer was lost completed it, or nothing counted. */
  lemma {:induction false} FailureLeavesACleanSlate(s: Seal, script: seq<Take>, index: nat, resetWorks: bool)
    requires s.sealed && s.progress < s.threshold
    requires StaysSealed(s, script, index) && !Answered(TakeOf(script, index))
    ensures index > 0 ==>
      (AfterFailure(s, script, index, resetWorks).progress == 0 <==>
         || resetWorks || TakeOf(script, index).Spoiled?
         || (TakeOf(script, index).AnswerLost? && s.progress + Counting(script, index) + 1 == s.threshold)
         || (TakeOf(script, index).Refused? && s.progress + Counting(script, index) == 0))
    ensures index == 0 ==>
      (AfterFailure(s, script, index, resetWorks) == s <==>
         TakeOf(script, 0).Refused? || (TakeOf(script, 0).Spoiled? && s.progress == 0))
  {
    SealedWhileTooFew(s, script, index);
    OneMore(s, script, index);
    NothingSubmitted(s, script);
  }

  /** A share that counts, one that is refused, and a reset that fails: progress 0
      is reported while the server's is 1. */
  method ReportedProgressCanBeWrong() returns (outcome: Outcome, seal: Seal)
    ensures outcome.ShareFailed? && outcome.result.progress == 0 && seal == Seal(3, 1, true)
  {
    var api := new Server(Seal(3, 0, true), [Counted, Refused], false);
    var keys := ["a", "b"];
    var s, script := api.seal, api.script;
    NothingSubmitted(s, script);
    OneMore(s, script, 0);
    OneMore(s, script, 1);
    outcome := Unseal(api, keys);
    seal := api.seal;
  }

  /** A first share whose answer is lost: the call fails and the share stays counted. */
  method LostFirstAnswerStaysCounted() returns (outcome: Outcome, seal: Seal)
    ensures outcome.ShareFailed? && outcome.result.submitted == 0 && seal == Seal(3, 1, true)
  {
    var api := new Server(Seal(3, 0, true), [AnswerLost], true);
    var s, script := api.seal, api.script;
    NothingSubmitted(s, script);
    OneMore(s, script, 0);
    outcome := Unseal(api, ["a"]);
    seal := api.seal;
  }
}
