/** Parsing and printing are inverse to each other: texts and well-formed trees correspond one to one. */
module TemplatingSyntax {
  import opened Strings
  import opened Templating

  // ------------------------------------------------------------------------- searching in concatenations

  lemma AtConcat(s: string, u: string, p: string, j: int)
    ensures |s| <= j ==> (At(s + u, p, j) <==> At(u, p, j - |s|))
    ensures j + |p| <= |s| ==> (At(s + u, p, j) <==> At(s, p, j))
  {
    if |s| <= j && j + |p| <= |s + u| { assert (s + u)[j..j + |p|] == u[j - |s|..j - |s| + |p|]; }
    if 0 <= j && j + |p| <= |s| { assert (s + u)[j..j + |p|] == s[j..j + |p|]; }
  }

  lemma IndexShift(s: string, u: string, p: string)
    requires forall j :: j < |s| ==> !At(s + u, p, j)
    ensures Index(s + u, p) == if Index(u, p) == -1 then -1 else |s| + Index(u, p)
  {
    IndexIsFirst(s + u, p);
    IndexIsFirst(u, p);
    AtConcat(s, u, p, Index(s + u, p));
    AtConcat(s, u, p, |s| + Index(u, p));
    forall j | |s| <= j ensures At(s + u, p, j) <==> At(u, p, j - |s|) { AtConcat(s, u, p, j); }
  }

  lemma IndexExtend(t: string, v: string, p: string)
    requires Index(t, p) != -1
    ensures Index(t + v, p) == Index(t, p)
  {
    var i := Index(t, p);
    IndexIsFirst(t, p);
    AtConcat(t, v, p, i);
    forall j | j < i ensures !At(t + v, p, j) { AtConcat(t, v, p, j); }
    IndexIs(t + v, p, i);
  }

  lemma SliceConcat(s: string, u: string, a: nat, b: nat)
    requires a <= b <= |u|
    ensures (s + u)[|s| + a..|s| + b] == u[a..b]
    ensures (s + u)[|s| + a..] == u[a..]
  {
  }

  lemma AtStart(t: string, j: int)
    ensures At(t, PLACEHOLDER_START, j) <==> 0 <= j && j + 2 <= |t| && t[j] == '\U{A7}' && t[j + 1] == '['
  {
    if 0 <= j && j + 2 <= |t| { assert t[j..j + 2] == [t[j], t[j + 1]]; }
  }

  lemma AtEnd(t: string, j: int)
    ensures At(t, PLACEHOLDER_END, j) <==> 0 <= j && j + 2 <= |t| && t[j] == ']' && t[j + 1] == '\U{A7}'
  {
    if 0 <= j && j + 2 <= |t| { assert t[j..j + 2] == [t[j], t[j + 1]]; }
  }

  lemma AtClosing(t: string, body: string, j: int)
    requires At(t, Closing(body), j)
    ensures |Closing(body)| == 5 + |TrimSpace(body)| && j + 5 + |TrimSpace(body)| <= |t|
    ensures t[j] == '\U{A7}' && t[j + 1] == '[' && t[j + 2] == '/'
    ensures t[j + 3..j + 3 + |TrimSpace(body)|] == TrimSpace(body)
    ensures t[j + 3 + |TrimSpace(body)|] == ']' && t[j + 4 + |TrimSpace(body)|] == '\U{A7}'
  {
    var c, name := Closing(body), TrimSpace(body);
    var found := t[j..j + |c|];
    assert |c| == 5 + |name| && c[0] == '\U{A7}' && c[1] == '[' && c[2] == '/';
    assert c[3 + |name|] == ']' && c[4 + |name|] == '\U{A7}';
    assert found[0] == t[j] && found[1] == t[j + 1] && found[2] == t[j + 2];
    assert found[3 + |name|] == t[j + 3 + |name|] && found[4 + |name|] == t[j + 4 + |name|];
    forall k | 0 <= k < |name| ensures t[j + 3..j + 3 + |name|][k] == name[k] {
      assert c[3 + k] == name[k] && found[3 + k] == t[j + 3 + k];
    }
  }

  lemma NoClosingWithoutStart(t: string, body: string, j: int)
    ensures At(t, Closing(body), j) ==> At(t, PLACEHOLDER_START, j)
  {
    if At(t, Closing(body), j) {
      AtClosing(t, body, j);
      AtStart(t, j);
    }
  }

  lemma NothingInSeparated(s: string, u: string, j: int)
    requires Separated(s) && HasPrefix(u, PLACEHOLDER_START) && j < |s|
    ensures !At(s + u, PLACEHOLDER_START, j) && !At(s + u, PLACEHOLDER_END, j)
  {
    AtStart(s + u, j);
    AtStart(s, j);
    AtEnd(s + u, j);
    AtEnd(s, j);
    IndexIsFirst(s, PLACEHOLDER_START);
    IndexIsFirst(s, PLACEHOLDER_END);
    assert (s + u)[|s|] == '\U{A7}';
    if s != "" { assert s[|s| - 1..] == [s[|s| - 1]]; }
  }

  /** Text in front of a placeholder moves every search of the scanner by its length. */
  lemma SearchBehindText(s: string, u: string, body: string)
    requires Separated(s) && HasPrefix(u, PLACEHOLDER_START)
    ensures Index(s + u, PLACEHOLDER_START) == |s|
    ensures Index(s + u, PLACEHOLDER_END) == if Index(u, PLACEHOLDER_END) == -1 then -1 else |s| + Index(u, PLACEHOLDER_END)
    ensures Index(s + u, Closing(body)) == if Index(u, Closing(body)) == -1 then -1 else |s| + Index(u, Closing(body))
  {
    forall j | j < |s|
      ensures !At(s + u, PLACEHOLDER_START, j) && !At(s + u, PLACEHOLDER_END, j) && !At(s + u, Closing(body), j)
    {
      NothingInSeparated(s, u, j);
      NoClosingWithoutStart(s + u, body, j);
    }
    IndexShift(s, u, PLACEHOLDER_START);
    IndexShift(s, u, PLACEHOLDER_END);
    IndexShift(s, u, Closing(body));
  }

  /** A closed body ends at its own end marker. */
  lemma EndOfBody(body: string, v: string)
    requires Closed(body)
    ensures var t := PLACEHOLDER_START + body + PLACEHOLDER_END + v;
            Index(t, PLACEHOLDER_START) == 0 && Index(t, PLACEHOLDER_END) == 2 + |body|
  {
    var t := PLACEHOLDER_START + body + PLACEHOLDER_END + v;
    AtStart(t, 0);
    AtEnd(t, 2 + |body|);
    IndexIsFirst(body, PLACEHOLDER_END);
    forall j | j < 2 + |body| ensures !At(t, PLACEHOLDER_END, j) {
      AtEnd(t, j);
      AtEnd(body, j - 2);
      assert 2 <= j ==> t[j] == body[j - 2] && (j + 1 < 2 + |body| ==> t[j + 1] == body[j - 1]);
    }
    IndexIs(t, PLACEHOLDER_START, 0);
    IndexIs(t, PLACEHOLDER_END, 2 + |body|);
  }

  /** A body never ends with the text that would close it. */
  lemma BodyDoesNotCloseItself(body: string, cut: nat)
    requires cut < |body| && body[cut] == '/'
    requires cut + 1 + |TrimSpace(body)| == |body|
    ensures body[cut + 1..] != TrimSpace(body)
  {
    var left, right := TrimSpaceParts(body);
    assert |left| + |right| == cut + 1;
    assert forall k :: 0 <= k < |left| ==> body[k] == left[k] && left[k] in left;
    if right != "" {
      assert right[|right| - 1] == body[|body| - 1] && right[|right| - 1] in right;
    }
  }

  /** An occurrence of the closing marker that starts before the first end marker ends with it. */
  lemma ClosingMeetsEnd(t: string, body: string, j: int, e: int)
    requires Closed(body) && Index(t, PLACEHOLDER_END) == e && At(t, Closing(body), j) && j < e
    ensures j + 3 + |TrimSpace(body)| == e
  {
    var name := TrimSpace(body);
    AtClosing(t, body, j);
    IndexIsFirst(t, PLACEHOLDER_END);
    AtEnd(t, j + 3 + |name|);
    AtEnd(t, e);
    NameIsClosed(body);
    IndexIsFirst(name, PLACEHOLDER_END);
    var found, o := t[j + 3..j + 3 + |name|], e - j - 3;
    AtEnd(name, o);
    assert forall k :: 0 <= k < |name| ==> name[k] == found[k] == t[j + 3 + k];
  }

  /** The text of an opening marker with this body, character by character. */
  predicate IsOpening(t: string, body: string) {
    && |t| >= 6 + |body| && t[4..4 + |body|] == body
    && t[0] == '\U{A7}' && t[1] == '[' && t[2] == '#' && t[3] == '>' && t[4 + |body|] == ']'
  }

  lemma OpeningText(body: string, w: string)
    ensures IsOpening(Opening(body) + w, body)
  {
    var t := Opening(body) + w;
    assert t[4..4 + |body|] == body;
  }

  lemma NoClosingInBody(t: string, body: string, j: int)
    requires IsOpening(t, body) && j + 3 + |TrimSpace(body)| == 4 + |body|
    ensures !At(t, Closing(body), j)
  {
    if At(t, Closing(body), j) {
      AtClosing(t, body, j);
      assert body[j - 2] == t[j + 2];
      assert t[j + 3..4 + |body|] == body[j - 1..];
      BodyDoesNotCloseItself(body, j - 2);
      assert false;
    }
  }

  lemma NoClosingInOpening(body: string, w: string, j: int)
    requires Closed(body) && j < 5 + |body|
    ensures !At(Opening(body) + w, Closing(body), j)
  {
    var t := Opening(body) + w;
    OpeningText(body, w);
    if At(t, Closing(body), j) {
      AtClosing(t, body, j);
      SearchOpening(body, w);
      ClosingMeetsEnd(t, body, j, 4 + |body|);
      NoClosingInBody(t, body, j);
    }
  }

  /** The closing marker cannot occur before the last character of the opening marker: behind an opening, the scanner's
      search misses or finds a place from the opening's last section sign on. */
  lemma SearchBehindOpening(body: string, w: string)
    requires Closed(body)
    ensures var t, rest := Opening(body) + w, "\U{A7}" + w;
            Index(t, Closing(body)) == if Index(rest, Closing(body)) == -1 then -1 else 5 + |body| + Index(rest, Closing(body))
  {
    var s, rest := PLACEHOLDER_START + START_INCLUDE_BLOCK + body + "]", "\U{A7}" + w;
    assert Opening(body) + w == s + rest;
    forall j | j < |s| ensures !At(s + rest, Closing(body), j) { NoClosingInOpening(body, w, j); }
    IndexShift(s, rest, Closing(body));
  }

  lemma ClosedUnderOpening(body: string)
    requires Closed(body)
    ensures Closed(START_INCLUDE_BLOCK + body)
  {
    var j := Index(START_INCLUDE_BLOCK + body, PLACEHOLDER_END);
    IndexIsFirst(START_INCLUDE_BLOCK + body, PLACEHOLDER_END);
    IndexIsFirst(body, PLACEHOLDER_END);
    AtEnd(START_INCLUDE_BLOCK + body, j);
    AtEnd(body, j - 2);
  }

  lemma NameIsClosed(body: string)
    requires Closed(body)
    ensures Closed(TrimSpace(body))
  {
    var left, right := TrimSpaceParts(body);
    var j := Index(TrimSpace(body), PLACEHOLDER_END);
    IndexIsFirst(TrimSpace(body), PLACEHOLDER_END);
    IndexIsFirst(body, PLACEHOLDER_END);
    AtEnd(TrimSpace(body), j);
    AtEnd(body, |left| + j);
  }

  // ------------------------------------------------------------------------------------- parse after print

  /** One round of the scanner, told what its searches find. */
  lemma ParseAt(t: string, start: nat, end: nat)
    requires start == Index(t, PLACEHOLDER_START) && end == Index(t, PLACEHOLDER_END) && start + 2 <= end
    ensures Parse(t) == var parsed := AfterScan(ScanPlaceholder(t, start, end));
                        if start == 0 then parsed else Then(Literal(t[..start]), parsed)
  {
  }

  lemma ScanBlockAt(t: string, start: nat, end: nat, body: string)
    requires start + 4 <= end && end + 2 <= |t| && t[start + 2..end] == START_INCLUDE_BLOCK + body
    ensures ScanPlaceholder(t, start, end) == ScanBlockBody(t, end, body, Index(t, Closing(body)))
  {
    assert HasPrefix(t[start + 2..end], START_INCLUDE_BLOCK) && t[start + 2..end][2..] == body;
  }

  lemma ScanBodyBehindText(s: string, u: string, end: nat, body: string, pos: int)
    requires end + 2 <= |u| && (pos == -1 || 0 <= pos <= |u| - |Closing(body)|)
    ensures ScanBlockBody(s + u, |s| + end, body, if pos == -1 then -1 else |s| + pos) == ScanBlockBody(u, end, body, pos)
  {
    var c := |Closing(body)|;
    SliceConcat(s, u, end + 2, if pos < end + 2 then end + 2 else pos);
    if pos != -1 { SliceConcat(s, u, pos + c, |u|); }
  }

  lemma ScanBlockBehindText(s: string, u: string, end: nat, body: string)
    requires Separated(s) && HasPrefix(u, PLACEHOLDER_START)
    requires 4 <= end && end + 2 <= |u| && u[2..end] == START_INCLUDE_BLOCK + body
    ensures ScanPlaceholder(s + u, |s|, |s| + end) == ScanPlaceholder(u, 0, end)
  {
    var pos := Index(u, Closing(body));
    SliceConcat(s, u, 2, end);
    SearchBehindText(s, u, body);
    ScanBodyBehindText(s, u, end, body, pos);
    ScanBlockShifted(s + u, |s|, u, end, body);
  }

  lemma ScanBlockShifted(t: string, n: nat, u: string, end: nat, body: string)
    requires 4 <= end && end + 2 <= |u| && u[2..end] == START_INCLUDE_BLOCK + body
    requires |t| == n + |u| && t[n + 2..n + end] == START_INCLUDE_BLOCK + body
    requires ScanBlockBody(t, n + end, body, Index(t, Closing(body))) == ScanBlockBody(u, end, body, Index(u, Closing(body)))
    ensures ScanPlaceholder(t, n, n + end) == ScanPlaceholder(u, 0, end)
  {
    ScanBlockAt(t, n, n + end, body);
    ScanBlockAt(u, 0, end, body);
  }

  lemma ScanPlainBehindText(s: string, u: string, end: nat)
    requires 2 <= end && end + 2 <= |u| && !HasPrefix(u[2..end], START_INCLUDE_BLOCK)
    ensures ScanPlaceholder(s + u, |s|, |s| + end) == ScanPlaceholder(u, 0, end)
  {
    SliceConcat(s, u, 2, end);
    SliceConcat(s, u, end + 2, |u|);
  }

  lemma ScanBehindText(s: string, u: string, end: nat)
    requires Separated(s) && HasPrefix(u, PLACEHOLDER_START) && 2 <= end && end + 2 <= |u|
    ensures ScanPlaceholder(s + u, |s|, |s| + end) == ScanPlaceholder(u, 0, end)
  {
    if HasPrefix(u[2..end], START_INCLUDE_BLOCK) {
      var body := u[2..end][2..];
      assert u[2..end] == START_INCLUDE_BLOCK + body;
      ScanBlockBehindText(s, u, end, body);
    } else {
      ScanPlainBehindText(s, u, end);
    }
  }

  lemma PrefixIsFirst(t: string, p: string)
    requires HasPrefix(t, p)
    ensures Index(t, p) == 0
  {
    assert t[..|p|] == p;
  }

  /** If the scanner finds the same behind a text as without it, the text becomes a literal. */
  lemma ParseInFront(t: string, s: string, u: string, end: nat, scan: Scan)
    requires 0 < |s| <= |t| && t[..|s|] == s && 2 <= end
    requires Index(u, PLACEHOLDER_START) == 0 && Index(u, PLACEHOLDER_END) == end
    requires Index(t, PLACEHOLDER_START) == |s| && Index(t, PLACEHOLDER_END) == |s| + end
    requires ScanPlaceholder(u, 0, end) == scan && ScanPlaceholder(t, |s|, |s| + end) == scan
    ensures Parse(t) == Then(Literal(s), Parse(u))
  {
    ParseAt(u, 0, end);
    ParseAt(t, |s|, |s| + end);
  }

  /** Text in front of a placeholder becomes a literal. */
  lemma ParseLiteral(s: string, u: string)
    requires s != "" && Separated(s) && HasPrefix(u, PLACEHOLDER_START) && Contains(u, PLACEHOLDER_END)
    ensures Parse(s + u) == Then(Literal(s), Parse(u))
  {
    var end := Index(u, PLACEHOLDER_END);
    PrefixIsFirst(u, PLACEHOLDER_START);
    MarkersApart(u);
    SearchBehindText(s, u, "");
    ScanBehindText(s, u, end);
    assert (s + u)[..|s|] == s;
    ParseInFront(s + u, s, u, end, ScanPlaceholder(u, 0, end));
  }

  lemma ParsePlainPlaceholder(body: string, v: string)
    requires WellFormedNode(Placeholder(body))
    ensures Parse(PrintNode(Placeholder(body)) + v) == Then(Placeholder(body), Parse(v))
  {
    var t := PrintNode(Placeholder(body)) + v;
    EndOfBody(body, v);
    assert t[2..2 + |body|] == body && t[4 + |body|..] == v;
  }

  function ScanOpened(body: string, w: string, i: int): Scan
    requires i == Index("\U{A7}" + w, Closing(body))
  {
    if i == -1 then Broken(MissingBlockEnd(body, w))
    else if i == 0 then Found(Fused(body), w[|Closing(body)| - 1..])
    else Found(Block(body, w[..i - 1]), w[i - 1 + |Closing(body)|..])
  }

  lemma SearchOpening(body: string, w: string)
    requires Closed(body)
    ensures var t := Opening(body) + w;
            Index(t, PLACEHOLDER_START) == 0 && Index(t, PLACEHOLDER_END) == 4 + |body|
  {
    assert Opening(body) + w == PLACEHOLDER_START + (START_INCLUDE_BLOCK + body) + PLACEHOLDER_END + w;
    ClosedUnderOpening(body);
    EndOfBody(START_INCLUDE_BLOCK + body, w);
  }

  lemma ScanOpenedAt(t: string, e: nat, body: string, w: string, i: int)
    requires 4 <= e && e + 2 <= |t| && t[2..e] == START_INCLUDE_BLOCK + body && t[e + 2..] == w
    requires i == Index("\U{A7}" + w, Closing(body))
    requires Index(t, Closing(body)) == if i == -1 then -1 else e + 1 + i
    ensures ScanPlaceholder(t, 0, e) == ScanOpened(body, w, i)
  {
    ScanBlockAt(t, 0, e, body);
    ScanBodyOpened(t, e, body, w, i);
  }

  lemma ScanBodyOpened(t: string, e: nat, body: string, w: string, i: int)
    requires e + 2 <= |t| && t[e + 2..] == w && i == Index("\U{A7}" + w, Closing(body))
    ensures ScanBlockBody(t, e, body, if i == -1 then -1 else e + 1 + i) == ScanOpened(body, w, i)
  {
    if i >= 0 { BehindClosing(t, e, w, i, |Closing(body)|); }
  }

  lemma BehindClosing(t: string, e: nat, w: string, i: nat, c: nat)
    requires e + 2 <= |t| && t[e + 2..] == w && 0 < c && i + c <= |w| + 1
    ensures t[e + 1 + i + c..] == w[i - 1 + c..]
    ensures i >= 1 ==> t[e + 2..e + 1 + i] == w[..i - 1]
  {
  }

  lemma OpeningParts(body: string, w: string)
    ensures var t, e := Opening(body) + w, 4 + |body|;
            e + 2 <= |t| && t[2..e] == START_INCLUDE_BLOCK + body && t[e + 2..] == w
  {
    var t, e := Opening(body) + w, 4 + |body|;
    assert Opening(body)[2..e] == START_INCLUDE_BLOCK + body;
    assert t[2..e] == Opening(body)[2..e];
  }

  /** What the scanner makes of an opening marker depends on the search behind it only. */
  lemma ParseOpened(body: string, w: string)
    requires Closed(body)
    ensures Parse(Opening(body) + w) == AfterScan(ScanOpened(body, w, Index("\U{A7}" + w, Closing(body))))
  {
    var t, e := Opening(body) + w, 4 + |body|;
    SearchOpening(body, w);
    SearchBehindOpening(body, w);
    ParseAt(t, 0, e);
    OpeningParts(body, w);
    ScanOpenedAt(t, e, body, w, Index("\U{A7}" + w, Closing(body)));
  }

  lemma BlockText(body: string, alt: string, v: string)
    ensures PrintNode(Block(body, alt)) + v == Opening(body) + (alt + Closing(body) + v)
  {
  }

  lemma FusedText(body: string, v: string)
    ensures PrintNode(Fused(body)) + v == Opening(body) + (Closing(body)[1..] + v)
  {
  }

  lemma SearchBlock(body: string, alt: string, v: string)
    requires WellFormedNode(Block(body, alt))
    ensures Index("\U{A7}" + (alt + Closing(body) + v), Closing(body)) == 1 + |alt|
  {
    var c := Closing(body);
    Regroup("\U{A7}", alt, c);
    Regroup("\U{A7}", alt + c, v);
    IndexExtend("\U{A7}" + alt + c, v, c);
  }

  lemma SearchFused(body: string, v: string)
    ensures Index("\U{A7}" + (Closing(body)[1..] + v), Closing(body)) == 0
  {
    var c := Closing(body);
    assert "\U{A7}" + (c[1..] + v) == c + v;
    PrefixIsFirst(c + v, c);
  }

  lemma ScanBlock(body: string, alt: string, v: string)
    requires Index("\U{A7}" + (alt + Closing(body) + v), Closing(body)) == 1 + |alt|
    ensures ScanOpened(body, alt + Closing(body) + v, 1 + |alt|) == Found(Block(body, alt), v)
  {
    var c := Closing(body);
    var w := alt + c + v;
    assert w[..|alt|] == alt && w[|alt| + |c|..] == v;
  }

  lemma ScanFused(body: string, v: string)
    requires Index("\U{A7}" + (Closing(body)[1..] + v), Closing(body)) == 0
    ensures ScanOpened(body, Closing(body)[1..] + v, 0) == Found(Fused(body), v)
  {
    var c := Closing(body);
    assert (c[1..] + v)[|c| - 1..] == v;
  }

  lemma ParsePrintedBlock(body: string, alt: string, v: string)
    requires WellFormedNode(Block(body, alt))
    ensures Parse(PrintNode(Block(body, alt)) + v) == Then(Block(body, alt), Parse(v))
  {
    BlockText(body, alt, v);
    SearchBlock(body, alt, v);
    ScanBlock(body, alt, v);
    ParseOpened(body, alt + Closing(body) + v);
  }

  lemma ParsePrintedFused(body: string, v: string)
    requires WellFormedNode(Fused(body))
    ensures Parse(PrintNode(Fused(body)) + v) == Then(Fused(body), Parse(v))
  {
    FusedText(body, v);
    SearchFused(body, v);
    ScanFused(body, v);
    ParseOpened(body, Closing(body)[1..] + v);
  }

  /** Every printed node but a literal is parsed back, whatever follows it. */
  lemma ParsePrintedNode(node: Node, v: string)
    requires WellFormedNode(node) && !node.Literal?
    ensures Parse(PrintNode(node) + v) == Then(node, Parse(v))
  {
    match node {
      case Placeholder(body) => ParsePlainPlaceholder(body, v);
      case Block(body, alt) => ParsePrintedBlock(body, alt, v);
      case Fused(body) => ParsePrintedFused(body, v);
    }
  }

  /** The text of a node that is no literal begins with a marker and has an end marker. */
  lemma PrintedMarkers(node: Node, v: string)
    requires WellFormedNode(node) && !node.Literal?
    ensures HasPrefix(PrintNode(node) + v, PLACEHOLDER_START) && Contains(PrintNode(node) + v, PLACEHOLDER_END)
  {
    match node {
      case Placeholder(body) =>
        EndOfBody(body, v);
      case Block(body, alt) =>
        BlockText(body, alt, v);
        OpeningMarkers(body, alt + Closing(body) + v);
      case Fused(body) =>
        FusedText(body, v);
        OpeningMarkers(body, Closing(body)[1..] + v);
    }
  }

  lemma OpeningMarkers(body: string, w: string)
    requires Closed(body)
    ensures HasPrefix(Opening(body) + w, PLACEHOLDER_START) && Contains(Opening(body) + w, PLACEHOLDER_END)
  {
    SearchOpening(body, w);
  }

  /** A literal before the rest of a well-formed tree is parsed back. */
  lemma ParsePrintedLiteral(s: string, next: Template)
    requires WellFormed(Then(Literal(s), next)) && Parse(Print(next)) == next
    ensures Parse(s + Print(next)) == Then(Literal(s), next)
  {
    match next {
      case End(Complete) =>
        assert s + "" == s;
      case End(MissingBlockEnd(body, rest)) =>
        SearchOpening(body, rest);
        ParseLiteral(s, Print(next));
      case Then(node, after) =>
        PrintedMarkers(node, Print(after));
        ParseLiteral(s, Print(next));
    }
  }

  /** Parsing the text of a well-formed tree gives the tree back. */
  lemma {:induction false} ParsePrint(template: Template)
    requires WellFormed(template)
    ensures Parse(Print(template)) == template
  {
    match template {
      case End(Complete) =>
      case End(MissingSeparator(rest)) =>
      case End(MissingBlockEnd(body, rest)) =>
        ParseOpened(body, rest);
      case Then(node, next) =>
        ParsePrint(next);
        if node.Literal? {
          ParsePrintedLiteral(node.text, next);
        } else {
          ParsePrintedNode(node, Print(next));
        }
    }
  }

  // ------------------------------------------------------------------------------------- print after parse

  /** Printing the tree of a text gives the text back, and the tree is well formed: every text has exactly one
      well-formed tree. */
  lemma {:induction false} PrintParse(t: string)
    ensures Print(Parse(t)) == t
    ensures WellFormed(Parse(t))
    decreases |t|
  {
    var start, end := Index(t, PLACEHOLDER_START), Index(t, PLACEHOLDER_END);
    if start == -1 || end < start {
      PrintParsePlain(t);
    } else {
      SplitAtStart(t, start, end);
      PrintParsePlaceholder(t[start..], end - start);
      PrintParseBehindText(t[..start], t[start..]);
    }
  }

  lemma PrintParsePlain(t: string)
    requires !Contains(t, PLACEHOLDER_START) || Index(t, PLACEHOLDER_END) < Index(t, PLACEHOLDER_START)
    ensures Print(Parse(t)) == t && WellFormed(Parse(t))
  {
    if !Contains(t, PLACEHOLDER_START) {
      assert t + "" == t;
    } else {
      assert Parse(t) == End(MissingSeparator(t));
    }
  }

  lemma SplitAtStart(t: string, start: int, end: int)
    requires start == Index(t, PLACEHOLDER_START) && end == Index(t, PLACEHOLDER_END) && 0 <= start <= end
    ensures t == t[..start] + t[start..]
    ensures Separated(t[..start]) && HasPrefix(t[start..], PLACEHOLDER_START)
    ensures Index(t[start..], PLACEHOLDER_END) == end - start >= 2
  {
    MarkersApart(t);
    SeparatedPrefix(t, start, end);
    SearchBehindText(t[..start], t[start..], "");
    assert t == t[..start] + t[start..];
  }

  lemma PrintParseBehindText(s: string, u: string)
    requires Separated(s) && HasPrefix(u, PLACEHOLDER_START) && Contains(u, PLACEHOLDER_END)
    requires Print(Parse(u)) == u && WellFormed(Parse(u))
    ensures Print(Parse(s + u)) == s + u && WellFormed(Parse(s + u))
  {
    if s == "" {
      assert s + u == u;
    } else {
      ParseLiteral(s, u);
      ParseAtFront(u);
    }
  }

  /** A text that begins with a marker does not begin with a literal. */
  lemma ParseAtFront(u: string)
    requires HasPrefix(u, PLACEHOLDER_START) && Contains(u, PLACEHOLDER_END)
    ensures Parse(u).Then? ==> !Parse(u).node.Literal?
    ensures Parse(u).End? ==> Parse(u).ending.MissingBlockEnd?
  {
    var end := Index(u, PLACEHOLDER_END);
    PrefixIsFirst(u, PLACEHOLDER_START);
    MarkersApart(u);
    ParseAt(u, 0, end);
    ScanFinds(u, end);
  }

  lemma ScanFinds(u: string, end: nat)
    requires 2 <= end && end + 2 <= |u|
    ensures match ScanPlaceholder(u, 0, end) case Broken(ending) => ending.MissingBlockEnd? case Found(node, _) => !node.Literal?
  {
  }

  lemma SeparatedPrefix(t: string, start: int, end: int)
    requires start == Index(t, PLACEHOLDER_START) && end == Index(t, PLACEHOLDER_END) && 0 <= start <= end
    ensures Separated(t[..start]) && HasPrefix(t[start..], PLACEHOLDER_START)
  {
    var s, u := t[..start], t[start..];
    assert t == s + u;
    IndexIsFirst(t, PLACEHOLDER_START);
    IndexIsFirst(t, PLACEHOLDER_END);
    IndexIsFirst(s, PLACEHOLDER_START);
    IndexIsFirst(s, PLACEHOLDER_END);
    AtConcat(s, u, PLACEHOLDER_START, Index(s, PLACEHOLDER_START));
    AtConcat(s, u, PLACEHOLDER_END, Index(s, PLACEHOLDER_END));
    AtStart(t, start);
    AtEnd(t, start - 1);
    if s != "" { assert s[start - 1..] == [s[start - 1]]; }
    assert u[..2] == [u[0], u[1]];
  }

  lemma PrintParsePlaceholder(u: string, end: int)
    requires HasPrefix(u, PLACEHOLDER_START) && end == Index(u, PLACEHOLDER_END) && 2 <= end
    ensures Print(Parse(u)) == u && WellFormed(Parse(u))
    decreases |u|, 0
  {
    var body, v := u[2..end], u[end + 2..];
    IndexIsFirst(u, PLACEHOLDER_END);
    assert u == PLACEHOLDER_START + body + PLACEHOLDER_END + v;
    ClosedPart(u, 2, end);
    if HasPrefix(body, START_INCLUDE_BLOCK) {
      ClosedPart(u, 4, end);
      assert body[2..] == u[4..end];
      assert u == Opening(body[2..]) + v;
      PrintParseOpened(body[2..], v);
    } else {
      PrintParse(v);
      ParsePlainPlaceholder(body, v);
    }
  }

  lemma ClosedPart(u: string, from: int, end: int)
    requires end == Index(u, PLACEHOLDER_END) && 0 <= from <= end
    ensures Closed(u[from..end])
  {
    var j := Index(u[from..end], PLACEHOLDER_END);
    IndexIsFirst(u[from..end], PLACEHOLDER_END);
    IndexIsFirst(u, PLACEHOLDER_END);
    AtEnd(u[from..end], j);
    AtEnd(u, from + j);
  }

  lemma PrintParseOpened(body: string, w: string)
    requires Closed(body)
    ensures Print(Parse(Opening(body) + w)) == Opening(body) + w && WellFormed(Parse(Opening(body) + w))
    decreases |Opening(body) + w|, -1
  {
    var i := Index("\U{A7}" + w, Closing(body));
    ParseOpened(body, w);
    if i >= 0 {
      OpenedText(body, w, i);
      PrintParse(ScanOpened(body, w, i).rest);
    }
  }

  /** A block found behind an opening marker spells out the text it was found in. */
  lemma OpenedText(body: string, w: string, i: int)
    requires i == Index("\U{A7}" + w, Closing(body)) && 0 <= i && Closed(body)
    ensures var found := ScanOpened(body, w, i);
            && PrintNode(found.node) + found.rest == Opening(body) + w
            && WellFormedNode(found.node) && !found.node.Literal?
            && |found.rest| < |Opening(body) + w|
  {
    IndexIsFirst("\U{A7}" + w, Closing(body));
    var c := Closing(body);
    if i == 0 {
      FoundAtFront(w, c);
      Regroup(Opening(body), c[1..], w[|c| - 1..]);
    } else {
      FoundBehind(w, c, i);
      Regroup(Opening(body), w[..i - 1] + c, w[i - 1 + |c|..]);
      Regroup(Opening(body), w[..i - 1], c);
      FirstClosing(w[..i - 1], c, w[i - 1 + |c|..], i);
    }
  }

  lemma Regroup(a: string, b: string, c: string)
    ensures (a + b) + c == a + (b + c)
  {
  }

  lemma FoundAtFront(w: string, c: string)
    requires c != "" && At("\U{A7}" + w, c, 0)
    ensures w == c[1..] + w[|c| - 1..]
  {
    var x := "\U{A7}" + w;
    assert x == c + x[|c|..];
    assert w == x[1..];
  }

  lemma FoundBehind(w: string, c: string, i: int)
    requires 0 < i && At("\U{A7}" + w, c, i)
    ensures w == w[..i - 1] + c + w[i - 1 + |c|..]
  {
    var x := "\U{A7}" + w;
    assert x == x[..i] + c + x[i + |c|..];
    assert w == x[1..];
  }

  lemma FirstClosing(alt: string, c: string, v: string, i: int)
    requires i == 1 + |alt| == Index("\U{A7}" + (alt + c + v), c)
    ensures Index("\U{A7}" + alt + c, c) == i
  {
    Regroup("\U{A7}", alt, c);
    Regroup("\U{A7}", alt + c, v);
    IndexCut("\U{A7}" + alt + c, v, c, i);
  }

  lemma IndexCut(t: string, v: string, p: string, i: nat)
    requires Index(t + v, p) == i && i + |p| <= |t|
    ensures Index(t, p) == i
  {
    IndexIsFirst(t + v, p);
    AtConcat(t, v, p, i);
    forall j | j < i ensures !At(t, p, j) { AtConcat(t, v, p, j); }
    IndexIs(t, p, i);
  }

  /** The guard on the position of the closing marker only ever rejects a missing marker. */
  lemma ClosingFoundBehindOpening(body: string, w: string)
    requires Closed(body)
    ensures Index(Opening(body) + w, Closing(body)) < 4 + |body| <==> !Contains(Opening(body) + w, Closing(body))
  {
    SearchBehindOpening(body, w);
  }

  /** Trees and texts: a tree is the tree of its own text exactly when it is well formed. */
  lemma RoundTrip(template: Template)
    ensures Parse(Print(template)) == template <==> WellFormed(template)
  {
    if WellFormed(template) {
      ParsePrint(template);
    } else {
      PrintParse(Print(template));
    }
  }
}
