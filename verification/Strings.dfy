/** The part of Go's package strings that the composition package relies on, over sequences of characters. */
module Strings {

  /** Pattern p occurs in t at position i. */
  predicate At(t: string, p: string, i: int) {
    0 <= i && i + |p| <= |t| && t[i..i + |p|] == p
  }

  lemma AtTail(t: string, p: string, j: int)
    requires t != "" && 0 < j
    ensures At(t, p, j) <==> At(t[1..], p, j - 1)
  {
    if j + |p| <= |t| { assert t[j..j + |p|] == t[1..][j - 1..j - 1 + |p|]; }
  }

  /** strings.Index: the first occurrence of p in t, or -1. */
  function Index(t: string, p: string): (i: int)
    ensures i == -1 || 0 <= i <= |t| - |p|
    decreases |t|
  {
    if |t| < |p| then -1
    else if t[..|p|] == p then 0
    else if t == "" then -1
    else var r := Index(t[1..], p); if r == -1 then -1 else r + 1
  }

  lemma {:induction false} IndexIsFirst(t: string, p: string)
    ensures Index(t, p) == -1 || At(t, p, Index(t, p))
    ensures forall j :: (Index(t, p) == -1 || j < Index(t, p)) ==> !At(t, p, j)
    decreases |t|
  {
    if |p| <= |t| && t[..|p|] != p && t != "" {
      IndexIsFirst(t[1..], p);
      forall j | 0 < j ensures At(t, p, j) <==> At(t[1..], p, j - 1) { AtTail(t, p, j); }
    }
  }

  /** Nothing but the first occurrence is found. */
  lemma IndexIs(t: string, p: string, i: int)
    requires At(t, p, i) && forall j :: j < i ==> !At(t, p, j)
    ensures Index(t, p) == i
  {
    IndexIsFirst(t, p);
  }

  predicate Contains(t: string, p: string) {
    Index(t, p) != -1
  }

  predicate HasPrefix(t: string, p: string) {
    p <= t
  }

  predicate HasSuffix(t: string, p: string) {
    |p| <= |t| && t[|t| - |p|..] == p
  }

  /** unicode.IsSpace */
  predicate IsSpace(c: char) {
    || '\t' <= c <= '\r' || c == ' ' || c == '\U{85}' || c == '\U{A0}' || c == '\U{1680}'
    || '\U{2000}' <= c <= '\U{200A}' || c == '\U{2028}' || c == '\U{2029}' || c == '\U{202F}'
    || c == '\U{205F}' || c == '\U{3000}'
  }

  ghost predicate Blank(t: string) {
    forall c :: c in t ==> IsSpace(c)
  }

  /** Neither starts nor ends with white space. */
  predicate Trimmed(t: string) {
    t != "" ==> !IsSpace(t[0]) && !IsSpace(t[|t| - 1])
  }

  function DropSpace(t: string): string {
    if t != "" && IsSpace(t[0]) then DropSpace(t[1..]) else t
  }

  function DropTrailingSpace(t: string): string {
    if t != "" && IsSpace(t[|t| - 1]) then DropTrailingSpace(t[..|t| - 1]) else t
  }

  /** strings.TrimSpace */
  function TrimSpace(t: string): string {
    DropTrailingSpace(DropSpace(t))
  }

  /** strings.Trim with the cut set of blank and newline. */
  function TrimBlanks(t: string): string {
    TrimBlanksEnd(TrimBlanksStart(t))
  }

  function TrimBlanksStart(t: string): string {
    if t != "" && (t[0] == ' ' || t[0] == '\n') then TrimBlanksStart(t[1..]) else t
  }

  function TrimBlanksEnd(t: string): string {
    if t != "" && (t[|t| - 1] == ' ' || t[|t| - 1] == '\n') then TrimBlanksEnd(t[..|t| - 1]) else t
  }

  /** strings.Replace of every occurrence of a non-empty text. */
  function ReplaceAll(t: string, what: string, with: string): string
    requires what != ""
    decreases |t|
  {
    if |t| < |what| then t
    else if t[..|what|] == what then with + ReplaceAll(t[|what|..], what, with)
    else [t[0]] + ReplaceAll(t[1..], what, with)
  }

  /** strings.Split with a one-character separator. */
  function Split(t: string, sep: char): (parts: seq<string>)
    ensures parts != []
  {
    if t == "" then [""]
    else if t[0] == sep then [""] + Split(t[1..], sep)
    else var rest := Split(t[1..], sep); [[t[0]] + rest[0]] + rest[1..]
  }

  function Join(parts: seq<string>, sep: char): string
    requires parts != []
  {
    if |parts| == 1 then parts[0] else parts[0] + [sep] + Join(parts[1..], sep)
  }

  lemma {:induction false} DropSpaceParts(t: string) returns (left: string)
    ensures t == left + DropSpace(t) && Blank(left)
    ensures DropSpace(t) != "" ==> !IsSpace(DropSpace(t)[0])
  {
    if t != "" && IsSpace(t[0]) {
      left := DropSpaceParts(t[1..]);
      left := [t[0]] + left;
    } else {
      left := "";
    }
  }

  lemma {:induction false} DropTrailingSpaceParts(t: string) returns (right: string)
    ensures t == DropTrailingSpace(t) + right && Blank(right)
    ensures DropTrailingSpace(t) != "" ==> !IsSpace(DropTrailingSpace(t)[|DropTrailingSpace(t)| - 1])
  {
    if t != "" && IsSpace(t[|t| - 1]) {
      right := DropTrailingSpaceParts(t[..|t| - 1]);
      right := right + [t[|t| - 1]];
    } else {
      right := "";
    }
  }

  /** What TrimSpace removes and what it keeps. */
  lemma TrimSpaceParts(t: string) returns (left: string, right: string)
    ensures t == left + TrimSpace(t) + right
    ensures Blank(left) && Blank(right) && Trimmed(TrimSpace(t))
  {
    left := DropSpaceParts(t);
    right := DropTrailingSpaceParts(DropSpace(t));
    assert DropSpace(t) == TrimSpace(t) + right;
    if TrimSpace(t) != "" { assert TrimSpace(t)[0] == DropSpace(t)[0]; }
  }

  lemma {:induction false} DropSpaceBlank(left: string, rest: string)
    requires Blank(left) && (rest != "" ==> !IsSpace(rest[0]))
    ensures DropSpace(left + rest) == rest
  {
    if left == "" {
      assert left + rest == rest;
    } else {
      assert (left + rest)[1..] == left[1..] + rest;
      DropSpaceBlank(left[1..], rest);
    }
  }

  lemma {:induction false} DropTrailingSpaceBlank(rest: string, right: string)
    requires Blank(right) && (rest != "" ==> !IsSpace(rest[|rest| - 1]))
    ensures DropTrailingSpace(rest + right) == rest
  {
    if right == "" {
      assert rest + right == rest;
    } else {
      var t := rest + right;
      assert t[..|t| - 1] == rest + right[..|right| - 1];
      assert t[|t| - 1] == right[|right| - 1];
      DropTrailingSpaceBlank(rest, right[..|right| - 1]);
    }
  }

  /** TrimSpace cuts exactly the surrounding white space: it undoes any padding of a trimmed text. */
  lemma TrimSpacePadded(left: string, core: string, right: string)
    requires Blank(left) && Blank(right) && Trimmed(core)
    ensures TrimSpace(left + core + right) == core
  {
    if core == "" {
      assert left + core + right == (left + right) + "";
      DropSpaceBlank(left + right, "");
    } else {
      assert left + core + right == left + (core + right);
      DropSpaceBlank(left, core + right);
      DropTrailingSpaceBlank(core, right);
    }
  }

  /** Splitting undoes joining when no part holds the separator. */
  lemma {:induction false} SplitJoin(parts: seq<string>, sep: char)
    requires parts != [] && forall p :: p in parts ==> sep !in p
    ensures Split(Join(parts, sep), sep) == parts
    decreases |parts|, |parts[0]|
  {
    var p := parts[0];
    if p == "" {
      if |parts| > 1 {
        assert Join(parts, sep)[1..] == Join(parts[1..], sep);
        SplitJoin(parts[1..], sep);
      }
    } else {
      var shorter := [p[1..]] + parts[1..];
      assert Join(parts, sep) == [p[0]] + Join(shorter, sep) by {
        assert shorter[1..] == parts[1..];
        if |parts| > 1 { assert p == [p[0]] + p[1..]; }
      }
      assert p[0] in p;
      assert forall q :: q in shorter ==> sep !in q by {
        assert forall c :: c in p[1..] ==> c in p;
      }
      SplitJoin(shorter, sep);
      assert Join(parts, sep)[1..] == Join(shorter, sep);
    }
  }

  /** The white space of Unicode, one by one. */
  lemma SpacesExactly(c: char)
    ensures IsSpace(c) <==>
            c in ['\t', '\n', '\U{0B}', '\U{0C}', '\r', ' ', '\U{85}', '\U{A0}', '\U{1680}', '\U{2000}', '\U{2001}', '\U{2002}',
                  '\U{2003}', '\U{2004}', '\U{2005}', '\U{2006}', '\U{2007}', '\U{2008}', '\U{2009}', '\U{200A}', '\U{2028}',
                  '\U{2029}', '\U{202F}', '\U{205F}', '\U{3000}']
  {
  }

  ghost predicate BlanksOnly(t: string) {
    forall c :: c in t ==> c == ' ' || c == '\n'
  }

  lemma {:induction false} TrimStartParts(t: string) returns (left: string)
    ensures t == left + TrimBlanksStart(t) && BlanksOnly(left)
    ensures TrimBlanksStart(t) != "" ==> TrimBlanksStart(t)[0] != ' ' && TrimBlanksStart(t)[0] != '\n'
  {
    if t != "" && (t[0] == ' ' || t[0] == '\n') {
      left := TrimStartParts(t[1..]);
      left := [t[0]] + left;
    } else {
      left := "";
    }
  }

  lemma {:induction false} TrimEndParts(t: string) returns (right: string)
    ensures t == TrimBlanksEnd(t) + right && BlanksOnly(right)
    ensures TrimBlanksEnd(t) != "" ==> TrimBlanksEnd(t)[|TrimBlanksEnd(t)| - 1] != ' ' && TrimBlanksEnd(t)[|TrimBlanksEnd(t)| - 1] != '\n'
  {
    if t != "" && (t[|t| - 1] == ' ' || t[|t| - 1] == '\n') {
      right := TrimEndParts(t[..|t| - 1]);
      right := right + [t[|t| - 1]];
    } else {
      right := "";
    }
  }

  /** Trimming takes blanks and newlines away from both ends, and stops at anything else. */
  lemma TrimBlanksParts(t: string) returns (left: string, right: string)
    ensures t == left + TrimBlanks(t) + right && BlanksOnly(left) && BlanksOnly(right)
    ensures var core := TrimBlanks(t);
            core != "" ==> core[0] != ' ' && core[0] != '\n' && core[|core| - 1] != ' ' && core[|core| - 1] != '\n'
  {
    left := TrimStartParts(t);
    right := TrimEndParts(TrimBlanksStart(t));
    if TrimBlanks(t) != "" { assert TrimBlanksStart(t)[0] == TrimBlanks(t)[0]; }
  }
}
