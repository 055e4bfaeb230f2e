/** Splitting a text at a separator character and joining parts with it. */
module Texts {
  /** str.split(sep): never empty, and parts may be empty. */
  function Split(s: string, sep: char): (parts: seq<string>)
    ensures parts != []
  {
    if s == [] then [[]]
    else
      var rest := Split(s[1..], sep);
      if s[0] == sep then [[]] + rest else [[s[0]] + rest[0]] + rest[1..]
  }

  function Join(parts: seq<string>, sep: char): string {
    if parts == [] then [] else if |parts| == 1 then parts[0] else parts[0] + [sep] + Join(parts[1..], sep)
  }

  lemma {:induction false} SplitPlain(s: string, sep: char)
    requires sep !in s
    ensures Split(s, sep) == [s]
  {
    if s != [] {
      SplitPlain(s[1..], sep);
      assert s[0] in s;
      assert [s[0]] + s[1..] == s;
    }
  }

  lemma {:induction false} SplitFirst(s: string, rest: string, sep: char)
    requires sep !in s
    ensures Split(s + [sep] + rest, sep) == [s] + Split(rest, sep)
  {
    var t := s + [sep] + rest;
    if s == [] {
      assert t[0] == sep && t[1..] == rest;
    } else {
      assert t[0] == s[0] && t[1..] == s[1..] + [sep] + rest;
      assert s[0] in s;
      SplitFirst(s[1..], rest, sep);
      assert [s[0]] + s[1..] == s;
    }
  }

  lemma {:induction false} SplitUndoesJoin(parts: seq<string>, sep: char)
    requires parts != [] && forall i :: 0 <= i < |parts| ==> sep !in parts[i]
    ensures Split(Join(parts, sep), sep) == parts
  {
    if |parts| == 1 {
      SplitPlain(parts[0], sep);
    } else {
      SplitFirst(parts[0], Join(parts[1..], sep), sep);
      SplitUndoesJoin(parts[1..], sep);
    }
  }

  /** More parts make a longer text that begins with the shorter one. */
  lemma {:induction false} JoinPrefix(a: seq<string>, b: seq<string>, sep: char)
    requires a <= b && |a| < |b| && forall i :: 0 <= i < |b| ==> b[i] != []
    ensures Join(a, sep) <= Join(b, sep) && |Join(a, sep)| < |Join(b, sep)|
  {
    if |a| == 0 {
      assert Join(b, sep) != [];
    } else if |a| == 1 {
      assert a[0] == b[0];
    } else {
      JoinPrefix(a[1..], b[1..], sep);
    }
  }
}
