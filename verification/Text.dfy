// The string operations the line parser is made of.
module Text {
  import opened RelayItems
  import Decimal

  const SPACES: set<int> := {
    9, 10, 11, 12, 13, 32, 0x85, 0xA0, 0x1680, 0x2000, 0x2001, 0x2002, 0x2003, 0x2004, 0x2005, 0x2006, 0x2007,
    0x2008, 0x2009, 0x200A, 0x2028, 0x2029, 0x202F, 0x205F, 0x3000 }

  predicate IsSpace(c: char) {
    c as int in SPACES
  }

  predicate IsQuote(c: char) {
    c == '"' || c == '\''
  }

  predicate IsBracket(c: char) {
    c == '[' || c == ']'
  }

  predicate IsSeparator(c: char) {
    c == ',' || c == '|' || c == ';' || c == '\t' || c == ' '
  }

  function TrimLeft(s: string, cut: char -> bool): string {
    if s != "" && cut(s[0]) then TrimLeft(s[1..], cut) else s
  }

  function TrimRight(s: string, cut: char -> bool): string {
    if s != "" && cut(s[|s| - 1]) then TrimRight(s[..|s| - 1], cut) else s
  }

  function Trim(s: string, cut: char -> bool): string {
    TrimRight(TrimLeft(s, cut), cut)
  }

  predicate Contains(s: string, word: string) {
    exists i :: 0 <= i <= |s| - |word| && s[i..][..|word|] == word
  }

  predicate HasPrefix(s: string, word: string) {
    |s| >= |word| && s[..|word|] == word
  }

  function LastIndex(s: string, c: char): (i: int)
    ensures -1 <= i < |s|
    ensures i >= 0 ==> s[i] == c
    ensures forall j :: i < j < |s| ==> s[j] != c
  {
    if s == "" then -1
    else if s[|s| - 1] == c then |s| - 1
    else LastIndex(s[..|s| - 1], c)
  }

  function Split(s: string, c: char): (parts: seq<string>)
    ensures |parts| >= 1
  {
    if s == "" then [""]
    else
      var rest := Split(s[1..], c);
      if s[0] == c then [""] + rest else [[s[0]] + rest[0]] + rest[1..]
  }

  function Join(parts: seq<string>, c: char): string
    requires |parts| >= 1
  {
    if |parts| == 1 then parts[0] else parts[0] + [c] + Join(parts[1..], c)
  }

  // Splitting at every run of separators, without empty fields.
  function Fields(s: string): seq<string> {
    if s == "" then []
    else if IsSeparator(s[0]) then Fields(s[1..])
    else
      var rest := Fields(s[1..]);
      if |s| > 1 && !IsSeparator(s[1]) && rest != [] then [[s[0]] + rest[0]] + rest[1..] else [[s[0]]] + rest
  }

  function ReplaceCRLF(s: string): string {
    if |s| < 2 then s
    else if s[0] == '\r' && s[1] == '\n' then "\n" + ReplaceCRLF(s[2..])
    else [s[0]] + ReplaceCRLF(s[1..])
  }

  // A decimal number with an optional sign that fits in 64 bits.
  function Atoi(s: string): Option<int> {
    if s == "" then None
    else
      var digits := Decimal.Parse(if s[0] == '+' || s[0] == '-' then s[1..] else s);
      if digits.None? then None
      else
        var n: int := digits.value;
        var value := if s[0] == '-' then -n else n;
        if -0x8000_0000_0000_0000 <= value < 0x8000_0000_0000_0000 then Some(value) else None
  }

  // The host and port of "host:port" or "[host]:port".
  function SplitHostPort(s: string): Option<(string, string)> {
    var i := LastIndex(s, ':');
    if i < 0 then None
    else if s[0] == '[' then
      var end := |s| - |SkipTo(s, ']')|;
      if end == |s| || end + 1 != i then None
      else if '[' in s[1..] || ']' in s[end + 1..] then None
      else Some((s[1..end], s[i + 1..]))
    else if ':' in s[..i] || '[' in s || ']' in s then None
    else Some((s[..i], s[i + 1..]))
  }

  // From the first c on.
  function SkipTo(s: string, c: char): (r: string)
    ensures |r| <= |s|
    ensures |s| > 0 && s[0] != c ==> |r| < |s|
  {
    if s == "" || s[0] == c then s else SkipTo(s[1..], c)
  }

  // ---------------------------------------------------------------- lemmas

  lemma TrimNothing(s: string, cut: char -> bool)
    requires s != "" ==> !cut(s[0]) && !cut(s[|s| - 1])
    ensures Trim(s, cut) == s
  {
  }

  // Splitting off one more character in front.
  function Fronted(x: char, parts: seq<string>, c: char): seq<string>
    requires |parts| >= 1
  {
    if x == c then [""] + parts else [[x] + parts[0]] + parts[1..]
  }

  lemma SplitFirst(x: char, s: string, c: char)
    ensures Split([x] + s, c) == Fronted(x, Split(s, c), c)
  {
    assert ([x] + s)[1..] == s;
  }

  lemma FrontedFirst(x: char, a: seq<string>, b: seq<string>, c: char)
    requires |a| >= 1
    ensures Fronted(x, a + b, c) == Fronted(x, a, c) + b
  {
    assert (a + b)[1..] == a[1..] + b;
  }

  lemma {:induction false} SplitOfJoined(a: string, b: string, c: char)
    ensures Split(a + [c] + b, c) == Split(a, c) + Split(b, c)
  {
    if a == "" {
      SplitFirst(c, b, c);
      assert a + [c] + b == [c] + b;
    } else {
      var t := a[1..];
      SplitOfJoined(t, b, c);
      SplitFirst(a[0], t, c);
      SplitFirst(a[0], t + [c] + b, c);
      FrontedFirst(a[0], Split(t, c), Split(b, c), c);
      assert a == [a[0]] + t && a + [c] + b == [a[0]] + (t + [c] + b);
    }
  }

  lemma {:induction false} SplitNothing(s: string, c: char)
    requires c !in s
    ensures Split(s, c) == [s]
  {
    if s != "" {
      SplitNothing(s[1..], c);
      assert s == [s[0]] + s[1..];
    }
  }

  lemma {:induction false} JoinSplit(s: string, c: char)
    ensures Join(Split(s, c), c) == s
  {
    if s != "" {
      JoinSplit(s[1..], c);
      var rest := Split(s[1..], c);
      if s[0] == c {
        assert Split(s, c)[1..] == rest;
      } else {
        assert Split(s, c)[1..] == rest[1..];
      }
    }
  }

  lemma {:induction false} FieldsNothing(s: string)
    requires s != "" && forall c :: c in s ==> !IsSeparator(c)
    ensures Fields(s) == [s]
  {
    if |s| > 1 {
      FieldsNothing(s[1..]);
      assert s == [s[0]] + s[1..];
    } else {
      assert s[1..] == "" && s == [s[0]];
    }
  }

  // A field in front of a separator is the first field.
  lemma {:induction false} FieldsOfJoined(a: string, c: char, b: string)
    requires a != "" && (forall x :: x in a ==> !IsSeparator(x)) && IsSeparator(c)
    ensures Fields(a + [c] + b) == [a] + Fields(b)
  {
    var s := a + [c] + b;
    assert s[1..] == a[1..] + [c] + b;
    if |a| > 1 {
      FieldsOfJoined(a[1..], c, b);
      assert a[1] in a && s[1] == a[1];
      assert [s[0]] + a[1..] == a;
    } else {
      assert ([c] + b)[1..] == b && s[1..] == [c] + b;
      assert a == [a[0]];
    }
  }

  lemma {:induction false} SkipToFirst(a: string, c: char, b: string)
    requires c !in a
    ensures SkipTo(a + [c] + b, c) == [c] + b
  {
    if a == "" {
      assert a + [c] + b == [c] + b;
    } else {
      assert (a + [c] + b)[1..] == a[1..] + [c] + b;
      SkipToFirst(a[1..], c, b);
    }
  }

  lemma {:induction false} NoCRLF(s: string)
    requires '\r' !in s
    ensures ReplaceCRLF(s) == s
  {
    if |s| >= 2 {
      NoCRLF(s[1..]);
    }
  }

  lemma {:induction false} LastIndexOfJoined(a: string, b: string, c: char)
    requires c !in b
    ensures LastIndex(a + [c] + b, c) == |a|
  {
    var s := a + [c] + b;
    if b != "" {
      LastIndexOfJoined(a, b[..|b| - 1], c);
      assert s[..|s| - 1] == a + [c] + b[..|b| - 1];
    }
  }

  lemma NoLastIndex(s: string, c: char)
    requires c !in s
    ensures LastIndex(s, c) == -1
  {
  }

  lemma AtoiPrint(n: nat)
    requires n < 0x8000_0000_0000_0000
    ensures Atoi(Decimal.Print(n)) == Some(n)
  {
    Decimal.PrintParse(n);
    assert Decimal.Print(n)[0] in Decimal.Print(n);
  }
}
