/** Reading unseal key shares, one a line, out of the stored value. */
module KeyFile {
  /** Unicode white space, which trimming removes. */
  predicate IsSpace(c: char) {
    || '\U{0009}' <= c <= '\U{000D}' || c == '\U{0020}' || c == '\U{0085}' || c == '\U{00A0}' || c == '\U{1680}'
    || '\U{2000}' <= c <= '\U{200A}' || c == '\U{2028}' || c == '\U{2029}' || c == '\U{202F}' || c == '\U{205F}'
    || c == '\U{3000}'
  }

  function TrimLeft(s: string): string {
    if s != "" && IsSpace(s[0]) then TrimLeft(s[1..]) else s
  }

  function TrimRight(s: string): string {
    if s != "" && IsSpace(s[|s| - 1]) then TrimRight(s[..|s| - 1]) else s
  }

  function Trim(s: string): string {
    TrimRight(TrimLeft(s))
  }

  function Without(s: string, c: char): string {
    if s == "" then "" else (if s[0] == c then "" else [s[0]]) + Without(s[1..], c)
  }

  /** The pieces between newlines; one more than there are newlines. */
  function Split(s: string): (lines: seq<string>)
    ensures |lines| > 0
  {
    if s == "" then [""]
    else
      var rest := Split(s[1..]);
      if s[0] == '\n' then [""] + rest else [[s[0]] + rest[0]] + rest[1..]
  }

  function KeyOf(line: string): string {
    Trim(Without(line, '\r'))
  }

  function KeysOf(lines: seq<string>): seq<string> {
    if lines == [] then []
    else (if KeyOf(lines[0]) == "" then [] else [KeyOf(lines[0])]) + KeysOf(lines[1..])
  }

  function Keys(data: string): seq<string> {
    KeysOf(Split(data))
  }

  function Join(keys: seq<string>): string {
    if keys == [] then "" else if |keys| == 1 then keys[0] else keys[0] + "\n" + Join(keys[1..])
  }

  /** A share as ParseKeys returns it. */
  predicate Clean(key: string) {
    key != "" && '\n' !in key && '\r' !in key && !IsSpace(key[0]) && !IsSpace(key[|key| - 1])
  }

  method ParseKeys(data: string) returns (keys: seq<string>)
    ensures keys == Keys(data)
  {
    hide Split, KeyOf;
    var lines := Split(data);
    keys := [];
    for i := 0 to |lines|
      invariant keys == KeysOf(lines[..i])
    {
      assert lines[..i + 1] == lines[..i] + [lines[i]];
      KeysOfConcat(lines[..i], [lines[i]]);
      var key := KeyOf(lines[i]);
      if key == "" {
        continue;
      }
      keys := keys + [key];
    }
    assert lines[..|lines|] == lines;
  }

  // ---- Trimming and deleting ----

  lemma {:induction false} TrimLeftStarts(s: string)
    ensures TrimLeft(s) == "" || !IsSpace(TrimLeft(s)[0])
    ensures |TrimLeft(s)| <= |s| && forall c | c in TrimLeft(s) :: c in s
  {
    if s != "" && IsSpace(s[0]) {
      TrimLeftStarts(s[1..]);
    }
  }

  lemma {:induction false} TrimRightEnds(s: string)
    ensures TrimRight(s) <= s
    ensures TrimRight(s) == "" || !IsSpace(TrimRight(s)[|TrimRight(s)| - 1])
  {
    if s != "" && IsSpace(s[|s| - 1]) {
      TrimRightEnds(s[..|s| - 1]);
    }
  }

  lemma {:induction false} TrimmedEnds(s: string)
    ensures |Trim(s)| <= |s| && forall c | c in Trim(s) :: c in s
    ensures Trim(s) == "" || (!IsSpace(Trim(s)[0]) && !IsSpace(Trim(s)[|Trim(s)| - 1]))
  {
    TrimLeftStarts(s);
    TrimRightEnds(TrimLeft(s));
  }

  lemma {:induction false} WithoutConcat(a: string, b: string, c: char)
    ensures Without(a + b, c) == Without(a, c) + Without(b, c)
  {
    if a == "" {
      assert a + b == b;
    } else {
      assert (a + b)[1..] == a[1..] + b;
      WithoutConcat(a[1..], b, c);
    }
  }

  lemma {:induction false} WithoutSome(s: string, c: char)
    ensures |Without(s, c)| <= |s| && c !in Without(s, c)
    ensures c !in s ==> Without(s, c) == s
    ensures forall d | d in Without(s, c) :: d in s
  {
    if s != "" {
      WithoutSome(s[1..], c);
      assert s == [s[0]] + s[1..];
    }
  }

  // ---- Lines ----

  lemma {:induction false} SplitConcat(a: string, b: string)
    ensures Split(a + "\n" + b) == Split(a) + Split(b)
  {
    if a == "" {
      assert (a + "\n" + b)[1..] == b;
    } else {
      assert (a + "\n" + b)[1..] == a[1..] + "\n" + b;
      SplitConcat(a[1..], b);
    }
  }

  lemma {:induction false} SplitOneLine(a: string)
    requires '\n' !in a
    ensures Split(a) == [a]
  {
    if a != "" {
      SplitOneLine(a[1..]);
      assert [a[0]] + a[1..] == a;
    }
  }

  lemma {:induction false} KeysOfConcat(a: seq<string>, b: seq<string>)
    ensures KeysOf(a + b) == KeysOf(a) + KeysOf(b)
  {
    if a == [] {
      assert a + b == b;
    } else {
      assert (a + b)[1..] == a[1..] + b;
      KeysOfConcat(a[1..], b);
    }
  }

  /** A newline anywhere separates the keys before it from those after it. */
  lemma {:induction false} KeysConcat(a: string, b: string)
    ensures Keys(a + "\n" + b) == Keys(a) + Keys(b)
  {
    SplitConcat(a, b);
    KeysOfConcat(Split(a), Split(b));
  }

  lemma {:induction false} KeysOneLine(a: string)
    requires '\n' !in a
    ensures Keys(a) == if KeyOf(a) == "" then [] else [KeyOf(a)]
  {
    SplitOneLine(a);
    assert [a][1..] == [];
    assert KeysOf([a]) == (if KeyOf(a) == "" then [] else [KeyOf(a)]) + KeysOf([a][1..]);
  }

  lemma {:induction false} FirstLine(data: string) returns (a: string, b: string)
    requires '\n' in data
    ensures data == a + "\n" + b && '\n' !in a
  {
    if data[0] == '\n' {
      a, b := "", data[1..];
    } else {
      assert data == [data[0]] + data[1..];
      a, b := FirstLine(data[1..]);
      a := [data[0]] + a;
    }
  }

  // ---- What parsing promises ----

  /** Every key is non-empty, free of CR and LF, and trimmed, and no longer than
      the data without its newlines. */
  lemma {:induction false} KeysAreClean(data: string, key: string)
    requires key in Keys(data)
    ensures Clean(key) && |key| <= |Without(data, '\n')|
    decreases |data|
  {
    if '\n' in data {
      var a, b := FirstLine(data);
      KeysConcat(a, b);
      WithoutConcat(a + "\n", b, '\n');
      WithoutConcat(a, "\n", '\n');
      if key in Keys(a) {
        KeysAreClean(a, key);
      } else {
        KeysAreClean(b, key);
      }
    } else {
      KeysOneLine(data);
      TrimmedEnds(Without(data, '\r'));
      WithoutSome(data, '\r');
      WithoutSome(data, '\n');
    }
  }

  lemma {:induction false} CleanIsItsKey(key: string)
    requires Clean(key)
    ensures KeyOf(key) == key && Keys(key) == [key]
  {
    hide Keys, Without;
    WithoutSome(key, '\r');
    KeysOneLine(key);
  }

  /** Parsing the newline-join of such keys returns them. */
  lemma {:induction false} ParseOfJoin(keys: seq<string>)
    requires forall k | k in keys :: Clean(k)
    ensures Keys(Join(keys)) == keys
  {
    if keys == [] {
      KeysOneLine("");
    } else {
      CleanIsItsKey(keys[0]);
      if |keys| > 1 {
        ParseOfJoin(keys[1..]);
        KeysConcat(keys[0], Join(keys[1..]));
      }
    }
  }

  /** The join of what was parsed is a normal form. */
  lemma {:induction false} ParseJoinParse(data: string)
    ensures Keys(Join(Keys(data))) == Keys(data)
  {
    forall k | k in Keys(data)
      ensures Clean(k)
    {
      KeysAreClean(data, k);
    }
    ParseOfJoin(Keys(data));
  }

  /** Carriage returns make no difference, wherever they stand. */
  lemma {:induction false} CarriageReturnsDoNotMatter(data: string)
    ensures Keys(Without(data, '\r')) == Keys(data)
    decreases |data|
  {
    if '\n' in data {
      var a, b := FirstLine(data);
      WithoutConcat(a + "\n", b, '\r');
      WithoutConcat(a, "\n", '\r');
      assert Without("\n", '\r') == "\n";
      KeysConcat(a, b);
      KeysConcat(Without(a, '\r'), Without(b, '\r'));
      CarriageReturnsDoNotMatter(a);
      CarriageReturnsDoNotMatter(b);
    } else {
      WithoutSome(data, '\r');
      WithoutSome(Without(data, '\r'), '\r');
      KeysOneLine(data);
      KeysOneLine(Without(data, '\r'));
    }
  }

  /** The same data with Windows line ends. */
  function WithCrLf(data: string): string {
    if data == "" then "" else (if data[0] == '\n' then "\r\n" else [data[0]]) + WithCrLf(data[1..])
  }

  lemma {:induction false} LineEndsDoNotMatter(data: string)
    ensures Keys(WithCrLf(data)) == Keys(data)
  {
    OnlyCarriageReturnsAdded(data);
    CarriageReturnsDoNotMatter(data);
    CarriageReturnsDoNotMatter(WithCrLf(data));
  }

  lemma {:induction false} OnlyCarriageReturnsAdded(data: string)
    ensures Without(WithCrLf(data), '\r') == Without(data, '\r')
  {
    if data != "" {
      OnlyCarriageReturnsAdded(data[1..]);
      var first := if data[0] == '\n' then "\r\n" else [data[0]];
      WithoutConcat(first, WithCrLf(data[1..]), '\r');
      assert first[1..] == if data[0] == '\n' then "\n" else "";
    }
  }

  predicate Blank(s: string) {
    forall c | c in s :: IsSpace(c)
  }

  lemma {:induction false} BlankHasNoKeys(s: string)
    requires Blank(s)
    ensures Keys(s) == []
  {
    if Keys(s) != [] {
      var key := Keys(s)[0];
      KeysAreClean(s, key);
      KeysComeFrom(s, key, key[0]);
    }
  }

  lemma {:induction false} KeysComeFrom(data: string, key: string, c: char)
    requires key in Keys(data) && c in key
    ensures c in data
    decreases |data|
  {
    if '\n' in data {
      var a, b := FirstLine(data);
      KeysConcat(a, b);
      if key in Keys(a) {
        KeysComeFrom(a, key, c);
      } else {
        KeysComeFrom(b, key, c);
      }
    } else {
      KeysOneLine(data);
      TrimmedEnds(Without(data, '\r'));
      WithoutSome(data, '\r');
    }
  }

  /** Blank lines before, between and after the shares make no difference. */
  lemma {:induction false} BlankLinesDoNotMatter(a: string, blank: string, b: string)
    requires Blank(blank)
    ensures Keys(a + "\n" + blank + "\n" + b) == Keys(a + "\n" + b)
    ensures Keys(blank + "\n" + a) == Keys(a) == Keys(a + "\n" + blank)
  {
    BlankHasNoKeys(blank);
    KeysConcat(a + "\n" + blank, b);
    KeysConcat(a, blank);
    KeysConcat(a, b);
    KeysConcat(blank, a);
  }

  // ---- Nothing but white space is lost ----

  function Visible(s: string): string {
    if s == "" then "" else (if IsSpace(s[0]) then "" else [s[0]]) + Visible(s[1..])
  }

  function Concat(keys: seq<string>): string {
    if keys == [] then "" else keys[0] + Concat(keys[1..])
  }

  lemma {:induction false} VisibleConcat(a: string, b: string)
    ensures Visible(a + b) == Visible(a) + Visible(b)
  {
    if a == "" {
      assert a + b == b;
    } else {
      assert (a + b)[1..] == a[1..] + b;
      VisibleConcat(a[1..], b);
    }
  }

  lemma {:induction false} ConcatAppend(a: seq<string>, b: seq<string>)
    ensures Concat(a + b) == Concat(a) + Concat(b)
  {
    if a == [] {
      assert a + b == b;
    } else {
      assert (a + b)[1..] == a[1..] + b;
      ConcatAppend(a[1..], b);
    }
  }

  lemma {:induction false} TrimLeftKeepsVisible(s: string)
    ensures Visible(TrimLeft(s)) == Visible(s)
  {
    if s != "" && IsSpace(s[0]) {
      TrimLeftKeepsVisible(s[1..]);
    }
  }

  lemma {:induction false} TrimRightKeepsVisible(s: string)
    ensures Visible(TrimRight(s)) == Visible(s)
  {
    if s != "" && IsSpace(s[|s| - 1]) {
      TrimRightKeepsVisible(s[..|s| - 1]);
      assert s == s[..|s| - 1] + [s[|s| - 1]];
      VisibleConcat(s[..|s| - 1], [s[|s| - 1]]);
    }
  }

  lemma {:induction false} WithoutKeepsVisible(s: string, c: char)
    requires IsSpace(c)
    ensures Visible(Without(s, c)) == Visible(s)
  {
    if s != "" {
      WithoutKeepsVisible(s[1..], c);
      VisibleConcat(if s[0] == c then "" else [s[0]], Without(s[1..], c));
    }
  }

  lemma {:induction false} LineContentIsKept(line: string)
    requires '\n' !in line
    ensures Visible(Concat(Keys(line))) == Visible(line)
  {
    KeysOneLine(line);
    WithoutKeepsVisible(line, '\r');
    TrimLeftKeepsVisible(Without(line, '\r'));
    TrimRightKeepsVisible(TrimLeft(Without(line, '\r')));
    hide Keys, Visible, Trim, TrimLeft, TrimRight, Without;
    ConcatOne(KeyOf(line));
  }

  lemma {:induction false} ConcatOne(key: string)
    ensures Concat([key]) == key && Concat([]) == ""
  {
    assert [key][1..] == [];
  }

  lemma {:induction false} VisibleLines(a: string, b: string)
    ensures Visible(a + "\n" + b) == Visible(a) + Visible(b)
  {
    VisibleConcat(a + "\n", b);
    VisibleConcat(a, "\n");
    assert Visible("\n") == "";
  }

  /** Every character that is not white space is kept, in order. */
  lemma {:induction false} ContentIsKept(data: string)
    ensures Visible(Concat(Keys(data))) == Visible(data)
    decreases |data|
  {
    hide Keys, Visible, Concat;
    if '\n' in data {
      var a, b := FirstLine(data);
      KeysConcat(a, b);
      ConcatAppend(Keys(a), Keys(b));
      VisibleConcat(Concat(Keys(a)), Concat(Keys(b)));
      VisibleLines(a, b);
      ContentIsKept(a);
      ContentIsKept(b);
    } else {
      LineContentIsKept(data);
    }
  }

  // ---- The one-share file of the job it replaces ----

  /** What `tr -d '\n\r'` posts. */
  function Deleted(data: string): string {
    Without(Without(data, '\r'), '\n')
  }

  function Newlines(n: nat): string {
    if n == 0 then "" else "\n" + Newlines(n - 1)
  }

  /** But for carriage returns, the data is one line that neither starts nor ends
      in white space, with newlines around it. */
  ghost predicate OneShare(data: string) {
    exists i: nat, body: string, j: nat ::
      Without(data, '\r') == Newlines(i) + body + Newlines(j) && Clean(body)
  }

  /** A newline before or after changes neither the keys nor what deleting leaves. */
  lemma {:induction false} NewlineAtAnEnd(c: string)
    ensures Keys("\n" + c) == Keys(c) == Keys(c + "\n")
    ensures Without("\n" + c, '\n') == Without(c, '\n') == Without(c + "\n", '\n')
  {
    hide Keys;
    assert "\n" + c == "" + "\n" + c && c + "\n" == c + "\n" + "";
    KeysConcat("", c);
    KeysConcat(c, "");
    KeysOneLine("");
    WithoutConcat("\n", c, '\n');
    WithoutConcat(c, "\n", '\n');
  }

  lemma {:induction false} NewlinesAround(i: nat, body: string, j: nat)
    requires Clean(body)
    ensures Keys(Newlines(i) + body + Newlines(j)) == [body]
    ensures Without(Newlines(i) + body + Newlines(j), '\n') == body
    decreases i + j
  {
    hide Keys, Clean, Without;
    if i > 0 {
      NewlinesAround(i - 1, body, j);
      NewlineAtAnEnd(Newlines(i - 1) + body + Newlines(j));
      assert Newlines(i) + body + Newlines(j) == "\n" + (Newlines(i - 1) + body + Newlines(j));
    } else if j > 0 {
      NewlinesAround(i, body, j - 1);
      NewlinesCommute(j - 1);
      NewlineAtAnEnd(Newlines(i) + body + Newlines(j - 1));
      assert Newlines(i) + body + Newlines(j) == Newlines(i) + body + Newlines(j - 1) + "\n";
    } else {
      assert Newlines(i) + body + Newlines(j) == body;
      CleanIsItsKey(body);
      CleanIsWhole(body);
    }
  }

  lemma {:induction false} CleanIsWhole(key: string)
    requires Clean(key)
    ensures Without(key, '\n') == key
  {
    WithoutSome(key, '\n');
  }

  lemma {:induction false} NewlinesCommute(n: nat)
    ensures "\n" + Newlines(n) == Newlines(n) + "\n"
  {
    if n > 0 {
      NewlinesCommute(n - 1);
    }
  }

  /** ParseKeys returns precisely what the replaced job would have posted for
      these data and no others: white space at either end of the share, or a
      second non-blank line, makes them differ. */
  lemma {:induction false} SameAsDeletingIffOneShare(data: string)
    ensures Keys(data) == [Deleted(data)] <==> OneShare(data)
  {
    var c := Without(data, '\r');
    CarriageReturnsDoNotMatter(data);
    WithoutSome(data, '\r');
    if OneShare(data) {
      var i: nat, body: string, j: nat :| c == Newlines(i) + body + Newlines(j) && Clean(body);
      NewlinesAround(i, body, j);
    }
    if Keys(data) == [Deleted(data)] {
      var i, body, j := TheShare(c);
    }
  }

  lemma {:induction false} NewlineBefore(i: nat, body: string, j: nat)
    ensures "\n" + (Newlines(i) + body + Newlines(j)) == Newlines(i + 1) + body + Newlines(j)
  {
  }

  lemma {:induction false} NewlineAfter(i: nat, body: string, j: nat)
    ensures Newlines(i) + body + Newlines(j) + "\n" == Newlines(i) + body + Newlines(j + 1)
  {
    NewlinesCommute(j);
  }

  lemma {:induction false} TheShare(c: string) returns (i: nat, body: string, j: nat)
    requires Keys(c) == [Without(c, '\n')] && '\r' !in c
    ensures c == Newlines(i) + body + Newlines(j) && Clean(body)
    decreases |c|
  {
    hide Keys, Without, Newlines, Clean;
    KeysAreClean(c, Without(c, '\n'));
    WithoutSome(c, '\n');
    NotEmpty(Without(c, '\n'));
    var rest, front := c[1..], c[..|c| - 1];
    if c[0] == '\n' {
      assert c == "\n" + rest;
      NewlineAtAnEnd(rest);
      i, body, j := TheShare(rest);
      NewlineBefore(i, body, j);
      i := i + 1;
    } else if c[|c| - 1] == '\n' {
      assert c == front + "\n";
      NewlineAtAnEnd(front);
      i, body, j := TheShare(front);
      NewlineAfter(i, body, j);
      j := j + 1;
    } else {
      NoInnerNewline(c);
      i, body, j := 0, c, 0;
      NoNewlines(c);
    }
  }

  lemma {:induction false} NotEmpty(key: string)
    requires Clean(key)
    ensures |key| > 0
  {
  }

  lemma {:induction false} NoNewlines(c: string)
    ensures c == Newlines(0) + c + Newlines(0)
  {
  }

  lemma {:induction false} WithoutLines(a: string, b: string)
    requires '\n' !in a
    ensures Without(a + "\n" + b, '\n') == a + Without(b, '\n')
  {
    WithoutConcat(a + "\n", b, '\n');
    WithoutConcat(a, "\n", '\n');
    WithoutSome(a, '\n');
    assert Without("\n", '\n') == "";
  }

  lemma {:induction false} LastStays(b: string)
    requires b != "" && b[|b| - 1] != '\n'
    ensures Without(b, '\n') != ""
  {
    WithoutConcat(b[..|b| - 1], [b[|b| - 1]], '\n');
    assert b == b[..|b| - 1] + [b[|b| - 1]];
  }

  lemma {:induction false} NoInnerNewline(c: string)
    requires c != "" && c[0] != '\n' && c[|c| - 1] != '\n' && Keys(c) == [Without(c, '\n')]
    ensures '\n' !in c
  {
    hide Keys, Without, Clean;
    if '\n' in c {
      var a, b := FirstLine(c);
      KeysConcat(a, b);
      WithoutLines(a, b);
      LastStays(b);
      var key := Without(c, '\n');
      assert key in Keys(a) + Keys(b);
      WithoutSome(a, '\n');
      if key in Keys(a) {
        KeysAreClean(a, key);
      } else {
        KeysAreClean(b, key);
      }
    }
  }

  /** The job posted the white space before a share; ParseKeys drops it. */
  lemma {:induction false} SpaceBeforeTheShare(key: string)
    requires Clean(key)
    ensures Keys(" " + key + "\n") == [key] && Deleted(" " + key + "\n") == " " + key
  {
    hide Keys, Without, TrimRight;
    var line := " " + key;
    NewlineAtAnEnd(line);
    WithoutSome(line, '\r');
    WithoutSome(line, '\n');
    WithoutSome(line + "\n", '\r');
    KeysOneLine(line);
    CleanIsItsKey(key);
    WithoutSome(key, '\r');
    assert line[1..] == key;
  }

  // ---- Shares as Vault writes them ----

  /** White space by code point, as the Unicode character database has it. */
  lemma {:induction false} SpacesAre(c: char)
    ensures IsSpace(c) <==>
      || c as int in {9, 10, 11, 12, 13, 32, 133, 160, 5760, 8232, 8233, 8239, 8287, 12288}
      || 8192 <= c as int <= 8202
  {
  }

  /** Below U+0080 exactly these six characters are white space. */
  lemma {:induction false} AsciiSpaces(c: char)
    requires c < '\U{0080}'
    ensures IsSpace(c) <==> c in {' ', '\t', '\n', '\U{000B}', '\U{000C}', '\r'}
  {
  }

  /** Every character is printable ASCII, as in hexadecimal or padded base64. */
  predicate Printable(key: string) {
    key != "" && forall c | c in key :: '!' <= c <= '~'
  }

  lemma {:induction false} PrintableIsClean(key: string)
    requires Printable(key)
    ensures Clean(key)
  {
    assert key[0] in key && key[|key| - 1] in key;
  }

  /** No character of such a share is lost. */
  lemma {:induction false} SharesAreKept(key: string)
    requires key != "" && forall c | c in key :: '!' <= c <= '~'
    ensures Keys(key) == [key]
  {
    assert Printable(key);
    PrintableIsClean(key);
    CleanIsItsKey(key);
  }

  /** Nor of any in a file of them, one a line. */
  lemma {:induction false} FilesOfSharesAreKept(keys: seq<string>)
    requires forall k | k in keys :: k != "" && forall c | c in k :: '!' <= c <= '~'
    ensures Keys(Join(keys)) == keys
  {
    forall k | k in keys
      ensures Clean(k)
    {
      assert Printable(k);
      PrintableIsClean(k);
    }
    ParseOfJoin(keys);
  }

  /** White space around a share, and nothing of the share, goes. */
  lemma {:induction false} SpaceAroundAShareGoes(before: string, key: string, after: string)
    requires key != "" && forall c | c in key :: '!' <= c <= '~'
    requires forall c | c in before + after :: c in {' ', '\t', '\r'}
    ensures Keys(before + key + after) == [key]
    ensures Keys(before + key + after + "\n") == [key]
  {
    hide Keys, Without;
    var line := before + key + after;
    assert Printable(key);
    PrintableIsClean(key);
    WithoutSome(before, '\r');
    WithoutSome(after, '\r');
    WithoutSome(key, '\r');
    WithoutConcat(before + key, after, '\r');
    WithoutConcat(before, key, '\r');
    forall c | c in before || c in after
      ensures IsSpace(c) && c != '\n'
    {
      assert c in before + after;
    }
    SpaceTrimmed(Without(before, '\r'), key, Without(after, '\r'));
    KeysOneLine(line);
    NewlineAtAnEnd(line);
  }

  lemma {:induction false} SpaceTrimmed(before: string, key: string, after: string)
    requires Clean(key) && Blank(before) && Blank(after)
    ensures Trim(before + key + after) == key
  {
    hide TrimLeft, TrimRight;
    assert before + key + after == before + (key + after);
    TrimLeftPast(before, key + after);
    TrimRightPast(key, after);
  }

  lemma {:induction false} TrimLeftPast(before: string, rest: string)
    requires Blank(before) && rest != "" && !IsSpace(rest[0])
    ensures TrimLeft(before + rest) == rest
  {
    if before == "" {
      assert before + rest == rest;
    } else {
      assert (before + rest)[1..] == before[1..] + rest;
      TrimLeftPast(before[1..], rest);
    }
  }

  lemma {:induction false} TrimRightPast(key: string, after: string)
    requires key != "" && !IsSpace(key[|key| - 1]) && Blank(after)
    ensures TrimRight(key + after) == key
  {
    if after == "" {
      assert key + after == key;
    } else {
      assert (key + after)[..|key + after| - 1] == key + after[..|after| - 1];
      TrimRightPast(key, after[..|after| - 1]);
    }
  }
}
