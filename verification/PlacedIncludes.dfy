/** Include tags on their way from a page's body to the nested executor: where they stand, what text they become, and how that
    text is read back and executed. */
module PlacedIncludes {
  import opened Wrappers
  import opened Strings
  import opened Html
  import opened T = Templating
  import opened TemplatingSyntax
  import opened Includes
  import opened HtmlContentParser
  import opened TreePruning

  /** What the body or a fragment is made of, in document order: text that is copied, and include tags. */
  datatype Piece = Copied(text: string) | Included(attrs: seq<Attribute>)

  function TagPieces(t: Token): seq<Piece> {
    if IsNamed(t, UIC_FETCH) || (IsStylesheet(t) && !IsNamed(t, UIC_INCLUDE)) then []
    else if IsNamed(t, UIC_INCLUDE) then [Included(t.attrs)]
    else [Copied(t.raw)]
  }

  /** The pieces of a body outside its fragments: removed elements, fragments, fetch tags and stylesheet links are left out. */
  function BodyPieces(f: Forest): seq<Piece> {
    match f
    case Nil => []
    case Leaf(t, next) => (if IsRemoved(t) then [] else TagPieces(t)) + BodyPieces(next)
    case Element(start, children, end, next) =>
      (if IsRemoved(start) || StartsFragment(start) then [] else TagPieces(start) + (BodyPieces(children) + [Copied(end.raw)]))
      + BodyPieces(next)
  }

  function FragmentTagPieces(t: Token): seq<Piece> {
    if IsNamed(t, UIC_INCLUDE) then [Included(t.attrs)] else if IsRemoved(t) || IsStylesheet(t) then [] else [Copied(t.raw)]
  }

  /** The pieces of a fragment. */
  function FragmentPieces(f: Forest): seq<Piece> {
    match f
    case Nil => []
    case Leaf(t, next) => FragmentTagPieces(t) + FragmentPieces(next)
    case Element(start, children, end, next) =>
      (if IsRemoved(start) && !IsNamed(start, UIC_INCLUDE) then []
       else FragmentTagPieces(start) + (FragmentPieces(children) + [Copied(end.raw)]))
      + FragmentPieces(next)
  }

  function SourceIn(attrs: seq<Attribute>): string {
    match GetAttr(attrs, "src") case None => "" case Some(a) => SourceOf(a.val)
  }

  predicate RequiredIn(attrs: seq<Attribute>) {
    match GetAttr(attrs, "required") case None => false case Some(a) => ParseBool(a.val) == Some(true)
  }

  /** The markers of an accepted include tag go through format: Fprintf inside fragments, nothing outside. */
  function PieceText(p: Piece, format: string -> string): string {
    match p
    case Copied(text) => text
    case Included(attrs) =>
      format(StartMarker(SourceIn(attrs), RequiredIn(attrs))) + format(EndMarker(SourceIn(attrs), RequiredIn(attrs)))
  }

  function TextOf(ps: seq<Piece>, format: string -> string): string {
    if ps == [] then "" else PieceText(ps[0], format) + TextOf(ps[1..], format)
  }

  function Verbatim(text: string): string {
    text
  }

  lemma {:induction false} TextOfConcat(a: seq<Piece>, b: seq<Piece>, format: string -> string)
    ensures TextOf(a + b, format) == TextOf(a, format) + TextOf(b, format)
  {
    if a == [] {
      assert a + b == b;
    } else {
      assert (a + b)[1..] == a[1..] + b;
      TextOfConcat(a[1..], b, format);
    }
  }

  lemma TextOfOne(p: Piece, format: string -> string)
    ensures TextOf([p], format) == PieceText(p, format)
  {
    assert [p][1..] == [];
  }

  /** The text around one piece. */
  lemma TextAround(ps: seq<Piece>, k: nat, format: string -> string)
    requires k < |ps|
    ensures TextOf(ps, format) == TextOf(ps[..k], format) + (PieceText(ps[k], format) + TextOf(ps[k + 1..], format))
  {
    var tail := ps[k..];
    assert ps == ps[..k] + tail && tail[0] == ps[k] && tail[1..] == ps[k + 1..];
    TextOfConcat(ps[..k], tail, format);
  }

  // ---------------------------------------------------------------------------------- what is written

  /** The tag was accepted, and the page depends on its base name. */
  predicate Noted(p: Piece, dependencies: set<string>) {
    p.Included? ==> GetInclude(p.attrs).Emitted? && Split(SourceIn(p.attrs), '#')[0] in dependencies
  }

  lemma TagWritten(t: Token, acc: BodyAcc, env: Foreign)
    requires TagInBody(t, acc, env).1.None?
    ensures TagInBody(t, acc, env).0.out == acc.out + TextOf(TagPieces(t), Verbatim)
    ensures forall p :: p in TagPieces(t) ==> Noted(p, TagInBody(t, acc, env).0.page.dependencies.Keys)
  {
    if TagPieces(t) != [] { TextOfOne(TagPieces(t)[0], Verbatim); }
    if IsNamed(t, UIC_INCLUDE) {
      var e := GetInclude(t.attrs);
      assert acc.out + (e.startMarker + e.endMarker) == acc.out + e.startMarker + e.endMarker;
    } else {
      assert acc.out + "" == acc.out;
    }
  }

  /** The text of a body is the text of its pieces. */
  lemma {:induction false} BodyWritten(f: Forest, acc: BodyAcc, env: Foreign)
    requires BodyContent(f) && BodyEffect(f, acc, env).1.None?
    ensures BodyEffect(f, acc, env).0.out == acc.out + TextOf(BodyPieces(f), Verbatim)
    decreases f, 1
  {
    match f {
      case Nil =>
      case Leaf(t, next) =>
        LeafWritten(t, next, acc, env);
      case Element(start, children, end, next) =>
        if IsRemoved(start) {
          BodyWritten(next, acc, env);
          NothingInFront(BodyPieces(next));
        } else if StartsFragment(start) {
          BodyWritten(next, AddedFragment(start, children, acc, env).0, env);
          NothingInFront(BodyPieces(next));
        } else {
          ElementWritten(start, children, end, next, acc, env);
        }
    }
  }

  lemma NothingInFront(ps: seq<Piece>)
    ensures [] + ps == ps
  {
  }

  lemma {:induction false} LeafWritten(t: Token, next: Forest, acc: BodyAcc, env: Foreign)
    requires BodyContent(next) && BodyEffect(Leaf(t, next), acc, env).1.None?
    ensures BodyEffect(Leaf(t, next), acc, env).0.out == acc.out + TextOf(BodyPieces(Leaf(t, next)), Verbatim)
    decreases Leaf(t, next), 0
  {
    if IsRemoved(t) {
      BodyWritten(next, acc, env);
      NothingInFront(BodyPieces(next));
    } else {
      TagWritten(t, acc, env);
      BodyWritten(next, TagInBody(t, acc, env).0, env);
      TextOfConcat(TagPieces(t), BodyPieces(next), Verbatim);
      Regroup(acc.out, TextOf(TagPieces(t), Verbatim), TextOf(BodyPieces(next), Verbatim));
    }
  }

  lemma {:induction false} ElementWritten(start: Token, children: Forest, end: Token, next: Forest, acc: BodyAcc, env: Foreign)
    requires !IsRemoved(start) && !StartsFragment(start) && BodyContent(children) && BodyContent(next)
    requires BodyEffect(Element(start, children, end, next), acc, env).1.None?
    ensures BodyEffect(Element(start, children, end, next), acc, env).0.out
         == acc.out + TextOf(BodyPieces(Element(start, children, end, next)), Verbatim)
    decreases Element(start, children, end, next), 0
  {
    var acc1 := TagInBody(start, acc, env).0;
    var acc2 := BodyEffect(children, acc1, env).0;
    TagWritten(start, acc, env);
    BodyWritten(children, acc1, env);
    BodyWritten(next, acc2.(out := acc2.out + end.raw), env);
    TextOfElement(TagPieces(start), BodyPieces(children), end.raw, BodyPieces(next), Verbatim);
    Rejoined(acc.out, TextOf(TagPieces(start), Verbatim), TextOf(BodyPieces(children), Verbatim), end.raw, TextOf(BodyPieces(next), Verbatim));
  }

  lemma Rejoined(out: string, a: string, b: string, c: string, d: string)
    ensures ((out + a) + b) + c + d == out + (a + b + c + d)
  {
    Regroup(out, a, b);
    Regroup(out, a + b, c);
    Regroup(out, a + b + c, d);
  }

  lemma TextOfElement(start: seq<Piece>, children: seq<Piece>, end: string, next: seq<Piece>, format: string -> string)
    ensures TextOf(start + (children + [Copied(end)]) + next, format)
         == TextOf(start, format) + TextOf(children, format) + end + TextOf(next, format)
  {
    var inner := children + [Copied(end)];
    TextOfConcat(start + inner, next, format);
    TextOfConcat(start, inner, format);
    TextOfConcat(children, [Copied(end)], format);
    TextOfOne(Copied(end), format);
    Regroup(TextOf(start, format), TextOf(children, format), end);
  }

  lemma {:induction false} BodyNoted(f: Forest, acc: BodyAcc, env: Foreign)
    requires BodyContent(f) && BodyEffect(f, acc, env).1.None?
    ensures forall p :: p in BodyPieces(f) ==> Noted(p, BodyEffect(f, acc, env).0.page.dependencies.Keys)
  {
    match f {
      case Nil =>
      case Leaf(t, next) =>
        if IsRemoved(t) {
          BodyNoted(next, acc, env);
        } else {
          TagWritten(t, acc, env);
          BodyNoted(next, TagInBody(t, acc, env).0, env);
          BodyDependencies(next, TagInBody(t, acc, env).0, env);
        }
      case Element(start, children, end, next) =>
        if IsRemoved(start) {
          BodyNoted(next, acc, env);
        } else if StartsFragment(start) {
          BodyNoted(next, AddedFragment(start, children, acc, env).0, env);
        } else {
          var acc1 := TagInBody(start, acc, env).0;
          var acc2 := BodyEffect(children, acc1, env).0;
          var acc3 := acc2.(out := acc2.out + end.raw);
          TagWritten(start, acc, env);
          BodyNoted(children, acc1, env);
          BodyNoted(next, acc3, env);
          BodyDependencies(children, acc1, env);
          BodyDependencies(next, acc3, env);
        }
    }
  }

  lemma FragmentTagWritten(t: Token, acc: FragmentAcc, env: Foreign)
    requires FragmentToken(t, acc, env).1.None?
    ensures FragmentToken(t, acc, env).0.out == acc.out + TextOf(FragmentTagPieces(t), env.fprintf)
    ensures forall p :: p in FragmentTagPieces(t) ==> Noted(p, FragmentToken(t, acc, env).0.dependencies.Keys)
  {
    if FragmentTagPieces(t) != [] { TextOfOne(FragmentTagPieces(t)[0], env.fprintf); }
    if IsNamed(t, UIC_INCLUDE) {
      var e := GetInclude(t.attrs);
      assert acc.out + (env.fprintf(e.startMarker) + env.fprintf(e.endMarker)) == acc.out + env.fprintf(e.startMarker) + env.fprintf(e.endMarker);
    } else {
      assert acc.out + "" == acc.out;
    }
  }

  /** The text of a fragment is the text of its pieces. */
  lemma {:induction false} FragmentWritten(f: Forest, acc: FragmentAcc, env: Foreign)
    requires FragmentEffect(f, acc, env).1.None?
    ensures FragmentEffect(f, acc, env).0.out == acc.out + TextOf(FragmentPieces(f), env.fprintf)
    decreases f, 1
  {
    match f {
      case Nil =>
      case Leaf(t, next) =>
        FragmentLeafWritten(t, next, acc, env);
      case Element(start, children, end, next) =>
        if IsRemoved(start) && !IsNamed(start, UIC_INCLUDE) {
          FragmentWritten(next, acc, env);
          NothingInFront(FragmentPieces(next));
        } else {
          FragmentElementWritten(start, children, end, next, acc, env);
        }
    }
  }

  lemma {:induction false} FragmentLeafWritten(t: Token, next: Forest, acc: FragmentAcc, env: Foreign)
    requires FragmentEffect(Leaf(t, next), acc, env).1.None?
    ensures FragmentEffect(Leaf(t, next), acc, env).0.out == acc.out + TextOf(FragmentPieces(Leaf(t, next)), env.fprintf)
    decreases Leaf(t, next), 0
  {
    FragmentTagWritten(t, acc, env);
    FragmentWritten(next, FragmentToken(t, acc, env).0, env);
    TextOfConcat(FragmentTagPieces(t), FragmentPieces(next), env.fprintf);
    Regroup(acc.out, TextOf(FragmentTagPieces(t), env.fprintf), TextOf(FragmentPieces(next), env.fprintf));
  }

  lemma {:induction false} FragmentElementWritten(start: Token, children: Forest, end: Token, next: Forest, acc: FragmentAcc, env: Foreign)
    requires !IsRemoved(start) || IsNamed(start, UIC_INCLUDE)
    requires FragmentEffect(Element(start, children, end, next), acc, env).1.None?
    ensures FragmentEffect(Element(start, children, end, next), acc, env).0.out
         == acc.out + TextOf(FragmentPieces(Element(start, children, end, next)), env.fprintf)
    decreases Element(start, children, end, next), 0
  {
    var acc1 := FragmentToken(start, acc, env).0;
    var acc2 := FragmentEffect(children, acc1, env).0;
    var a, b, d := FragmentTagPieces(start), FragmentPieces(children), FragmentPieces(next);
    FragmentTagWritten(start, acc, env);
    FragmentWritten(children, acc1, env);
    FragmentWritten(next, acc2.(out := acc2.out + end.raw), env);
    TextOfElement(a, b, end.raw, d, env.fprintf);
    Rejoined(acc.out, TextOf(a, env.fprintf), TextOf(b, env.fprintf), end.raw, TextOf(d, env.fprintf));
  }

  lemma {:induction false} FragmentNoted(f: Forest, acc: FragmentAcc, env: Foreign)
    requires FragmentEffect(f, acc, env).1.None?
    ensures forall p :: p in FragmentPieces(f) ==> Noted(p, FragmentEffect(f, acc, env).0.dependencies.Keys)
  {
    match f {
      case Nil =>
      case Leaf(t, next) =>
        FragmentTagWritten(t, acc, env);
        FragmentNoted(next, FragmentToken(t, acc, env).0, env);
        FragmentDependencies(next, FragmentToken(t, acc, env).0, env);
      case Element(start, children, end, next) =>
        if IsRemoved(start) && !IsNamed(start, UIC_INCLUDE) {
          FragmentNoted(next, acc, env);
        } else {
          var acc1 := FragmentToken(start, acc, env).0;
          var acc2 := FragmentEffect(children, acc1, env).0;
          var acc3 := acc2.(out := acc2.out + end.raw);
          FragmentTagWritten(start, acc, env);
          FragmentNoted(children, acc1, env);
          FragmentNoted(next, acc3, env);
          FragmentDependencies(children, acc1, env);
          FragmentDependencies(next, acc3, env);
        }
    }
  }

  // ---------------------------------------------------------------------------------- what is read back

  /** The text before and after an include in a fragment's content, and the node it becomes. */
  ghost predicate ReadInPlace(content: string, before: string, attrs: seq<Attribute>, after: string) {
    var node := IncludeNode(SourceIn(attrs), RequiredIn(attrs));
    T.Parse(content) == Append(T.Parse(before), Then(node, T.Parse(after))) && CallsOf(node) == {SourceIn(attrs)}
  }

  predicate NotBlank(c: char) {
    c != ' ' && c != '\n'
  }

  lemma {:induction false} TrimStartAround(a: string, m: string)
    requires m != "" && NotBlank(m[0])
    ensures TrimBlanksStart(a + m) == TrimBlanksStart(a) + m
  {
    if a == "" {
      assert a + m == m;
    } else {
      assert (a + m)[0] == a[0] && (a + m)[1..] == a[1..] + m;
      TrimStartAround(a[1..], m);
    }
  }

  lemma {:induction false} TrimEndAround(m: string, b: string)
    requires m != "" && NotBlank(m[|m| - 1])
    ensures TrimBlanksEnd(m + b) == m + TrimBlanksEnd(b)
  {
    var n := |b| - 1;
    if b == "" {
      assert m + b == m;
    } else {
      assert (m + b)[|m + b| - 1] == b[n] && (m + b)[..|m + b| - 1] == m + b[..n];
      TrimEndAround(m, b[..n]);
    }
  }

  lemma IncludeTextEnds(src: string, required: bool)
    ensures IncludeText(src, required) != "" && NotBlank(IncludeText(src, required)[0])
    ensures NotBlank(IncludeText(src, required)[|IncludeText(src, required)| - 1])
  {
  }

  /** Trimming a text around an include trims what is before it on the left and what is behind it on the right. */
  lemma TrimAround(a: string, m: string, b: string)
    requires m != "" && NotBlank(m[0]) && NotBlank(m[|m| - 1])
    ensures TrimBlanks(a + (m + b)) == TrimBlanksStart(a) + (m + TrimBlanksEnd(b))
  {
    var left := TrimBlanksStart(a);
    TrimStartAround(a, m + b);
    Regroup(left, m, b);
    TrimEndAround(left + m, b);
    Regroup(left, m, TrimBlanksEnd(b));
  }

  lemma TrimmedAroundPiece(ps: seq<Piece>, k: nat)
    requires k < |ps| && ps[k].Included?
    ensures var text := IncludeText(SourceIn(ps[k].attrs), RequiredIn(ps[k].attrs));
            && text != ""
            && TrimBlanks("" + TextOf(ps, Verbatim))
            == TrimBlanksStart(TextOf(ps[..k], Verbatim)) + (text + TrimBlanksEnd(TextOf(ps[k + 1..], Verbatim)))
  {
    var src, required := SourceIn(ps[k].attrs), RequiredIn(ps[k].attrs);
    var a, b := TextOf(ps[..k], Verbatim), TextOf(ps[k + 1..], Verbatim);
    TextAround(ps, k, Verbatim);
    assert "" + TextOf(ps, Verbatim) == a + (IncludeText(src, required) + b);
    IncludeTextEnds(src, required);
    TrimAround(a, IncludeText(src, required), b);
  }

  /** Every include tag that stands in a well-nested body outside its fragments: the default fragment holds its text in the place
      of the tag, the page depends on its base name, and the text is read back there, as one node that calls exactly its source,
      if and only if what is in front of it is open and the source is expressible. */
  lemma IncludeInBody(f: Forest, page: PageParts, env: Foreign, k: nat)
    requires BodyContent(f) && BodyEffect(f, BodyAcc(page, "", []), env).1.None?
    requires "" !in BodyEffect(f, BodyAcc(page, "", []), env).0.page.body
    requires k < |BodyPieces(f)| && BodyPieces(f)[k].Included?
    ensures var attrs, parts := BodyPieces(f)[k].attrs, WithDefaultFragment(BodyEffect(f, BodyAcc(page, "", []), env).0);
            var src, required := SourceIn(attrs), RequiredIn(attrs);
            var before, after := TrimBlanksStart(TextOf(BodyPieces(f)[..k], Verbatim)), TrimBlanksEnd(TextOf(BodyPieces(f)[k + 1..], Verbatim));
            && Split(src, '#')[0] in parts.dependencies
            && "" in parts.body && parts.body[""].content == before + (IncludeText(src, required) + after)
            && (ReadInPlace(parts.body[""].content, before, attrs, after) <==> Open(T.Parse(before)) && Expressible(src))
  {
    var ps, acc := BodyPieces(f), BodyEffect(f, BodyAcc(page, "", []), env).0;
    var src, required := SourceIn(ps[k].attrs), RequiredIn(ps[k].attrs);
    var a, b := TextOf(ps[..k], Verbatim), TextOf(ps[k + 1..], Verbatim);
    BodyNoted(f, BodyAcc(page, "", []), env);
    assert Noted(ps[k], acc.page.dependencies.Keys);
    BodyWritten(f, BodyAcc(page, "", []), env);
    TrimmedAroundPiece(ps, k);
    ReadBackExactly(TrimBlanksStart(a), src, required, TrimBlanksEnd(b));
  }

  /** Fprintf without arguments leaves a format alone if and only if there is no verb in it, and always what is in front of the
      first verb. */
  ghost predicate PrintsVerbs(fprintf: string -> string) {
    && (forall format :: fprintf(format) == format <==> '%' !in format)
    && (forall front, format :: '%' !in front ==> fprintf(front + format) == front + fprintf(format))
  }

  function StartFront(required: bool): string {
    PLACEHOLDER_START + (if required then START_INCLUDE else START_INCLUDE_BLOCK) + " "
  }

  /** Both markers end in the source and an end marker. */
  lemma MarkerParts(src: string, required: bool)
    ensures StartMarker(src, required) == StartFront(required) + (src + PLACEHOLDER_END)
    ensures EndMarker(src, required) == if required then "" else PLACEHOLDER_START + END_INCLUDE_BLOCK + (src + PLACEHOLDER_END)
  {
  }

  /** Fprintf leaves the markers alone if and only if there is no verb in the source, and this shows in their joint text. */
  lemma MarkersKept(src: string, required: bool, fprintf: string -> string)
    requires PrintsVerbs(fprintf)
    ensures var start, end := fprintf(StartMarker(src, required)), fprintf(EndMarker(src, required));
            && ('%' !in src <==> start == StartMarker(src, required) && end == EndMarker(src, required))
            && (start + end == IncludeText(src, required) ==> '%' !in src)
  {
    var front, close, tail := StartFront(required), PLACEHOLDER_START + END_INCLUDE_BLOCK, src + PLACEHOLDER_END;
    var s, e := StartMarker(src, required), EndMarker(src, required);
    MarkerParts(src, required);
    assert '%' !in front && '%' !in close && ('%' in tail <==> '%' in src);
    assert fprintf(s) == front + fprintf(tail) && fprintf(e) == if required then "" else close + fprintf(tail);
    if fprintf(s) + fprintf(e) == s + e {
      assert |fprintf(s)| == |s|;
      assert fprintf(s) == (fprintf(s) + fprintf(e))[..|s|] == (s + e)[..|s|] == s;
    }
  }

  lemma {:induction false} PrintAppend(t: Template, rest: Template)
    requires Open(t)
    ensures Print(Append(t, rest)) == Print(t) + Print(rest)
  {
    if t.Then? {
      PrintAppend(t.next, rest);
      Regroup(PrintNode(t.node), Print(t.next), Print(rest));
    }
  }

  /** Behind an open text, what is read as an include's node is the include's text. */
  lemma TextReadInPlace(before: string, text: string, attrs: seq<Attribute>, after: string)
    requires Open(T.Parse(before)) && ReadInPlace(before + (text + after), before, attrs, after)
    ensures Expressible(SourceIn(attrs)) && text == IncludeText(SourceIn(attrs), RequiredIn(attrs))
  {
    var src, node := SourceIn(attrs), IncludeNode(SourceIn(attrs), RequiredIn(attrs));
    var rest := Then(node, T.Parse(after));
    PrintParse(before);
    PrintParse(after);
    PrintParse(before + (text + after));
    AppendedWellFormed(T.Parse(before), rest);
    assert src in CallsOf(node);
    CalledIsExpressible(node, src);
    IncludeNodeCalls(src, RequiredIn(attrs));
    PrintAppend(T.Parse(before), rest);
    SameTail(before, text + after, PrintNode(node) + after);
    SameHead(text, PrintNode(node), after);
  }

  lemma SameHead(a: string, b: string, c: string)
    requires a + c == b + c
    ensures a == b
  {
    assert |a| == |b|;
    assert a == (a + c)[..|a|] && b == (b + c)[..|b|];
  }

  /** Every include tag that stands in a well-nested fragment: its markers go through Fprintf, which leaves them alone if and only
      if the source has no verb in it. Without a verb it is read back as one node that calls exactly the source under the same
      conditions as in the body, and with one never behind an open text. In any case the page depends on the base name. */
  lemma IncludeInFragment(f: Forest, env: Foreign, k: nat)
    requires FragmentEffect(f, FragmentAcc("", [], map[]), env).1.None? && PrintsVerbs(env.fprintf)
    requires k < |FragmentPieces(f)| && FragmentPieces(f)[k].Included?
    ensures var attrs, o := FragmentPieces(f)[k].attrs, FragmentEffect(f, FragmentAcc("", [], map[]), env).0;
            var src, required := SourceIn(attrs), RequiredIn(attrs);
            var before, after := TextOf(FragmentPieces(f)[..k], env.fprintf), TextOf(FragmentPieces(f)[k + 1..], env.fprintf);
            var start, end := env.fprintf(StartMarker(src, required)), env.fprintf(EndMarker(src, required));
            && Split(src, '#')[0] in o.dependencies
            && o.out == before + ((start + end) + after)
            && ('%' !in src <==> start == StartMarker(src, required) && end == EndMarker(src, required))
            && ('%' !in src ==> (ReadInPlace(o.out, before, attrs, after) <==> Open(T.Parse(before)) && Expressible(src)))
            && (Open(T.Parse(before)) ==> (ReadInPlace(o.out, before, attrs, after) <==> '%' !in src && Expressible(src)))
  {
    var ps, o := FragmentPieces(f), FragmentEffect(f, FragmentAcc("", [], map[]), env).0;
    var src, required := SourceIn(ps[k].attrs), RequiredIn(ps[k].attrs);
    var before, after := TextOf(ps[..k], env.fprintf), TextOf(ps[k + 1..], env.fprintf);
    FragmentNoted(f, FragmentAcc("", [], map[]), env);
    assert Noted(ps[k], o.dependencies.Keys);
    FragmentWritten(f, FragmentAcc("", [], map[]), env);
    TextAround(ps, k, env.fprintf);
    assert "" + TextOf(ps, env.fprintf) == TextOf(ps, env.fprintf);
    MarkersKept(src, required, env.fprintf);
    ReadBackExactly(before, src, required, after);
    if Open(T.Parse(before)) && ReadInPlace(o.out, before, ps[k].attrs, after) {
      TextReadInPlace(before, PieceText(ps[k], env.fprintf), ps[k].attrs, after);
    }
  }

  /** What is called instead of a source with a verb is what Fprintf makes of it. */
  lemma CalledInstead(before: string, src: string, other: string, required: bool, after: string, fprintf: string -> string)
    requires PrintsVerbs(fprintf) && fprintf(src + PLACEHOLDER_END) == other + PLACEHOLDER_END
    requires Open(T.Parse(before)) && Expressible(other)
    ensures T.Parse(before + ((fprintf(StartMarker(src, required)) + fprintf(EndMarker(src, required))) + after))
         == Append(T.Parse(before), Then(IncludeNode(other, required), T.Parse(after)))
    ensures CallsOf(IncludeNode(other, required)) == {other}
  {
    var front, close := StartFront(required), PLACEHOLDER_START + END_INCLUDE_BLOCK;
    MarkerParts(src, required);
    MarkerParts(other, required);
    assert '%' !in front && '%' !in close;
    assert fprintf(StartMarker(src, required)) == StartMarker(other, required);
    assert fprintf(EndMarker(src, required)) == EndMarker(other, required);
    ReadBackExactly(before, other, required, after);
  }

  lemma WithoutBracket(src: string)
    requires ']' !in src
    ensures Closed(src)
  {
    IndexIsFirst(src, PLACEHOLDER_END);
    AtEnd(src, Index(src, PLACEHOLDER_END));
  }

  lemma SourceAsWritten(src: string)
    requires src != "" && !IsSpace(src[0]) && !IsSpace(src[|src| - 1]) && '#' !in src
    ensures SourceOf(src) == src && Split(src, '#') == [src]
  {
    SplitsToItself(src, '#');
    assert src[0] in src;
    TrimmedStays(src);
  }

  lemma TrimmedStays(src: string)
    requires Trimmed(src)
    ensures TrimSpace(src) == src
  {
    assert "" + src + "" == src;
    TrimSpacePadded("", src, "");
  }

  lemma SplitsToItself(src: string, sep: char)
    requires sep !in src
    ensures Split(src, sep) == [src]
  {
    SplitJoin([src], sep);
  }

  lemma OnlyIncludeWritten(attrs: seq<Attribute>, src: string, env: Foreign)
    requires GetAttr(attrs, "src") == Some(Attribute("", "src", src)) && GetAttr(attrs, "required") == None
    requires SourceOf(src) == src && Split(src, '#') == [src]
    ensures FragmentToken(StartTag(UIC_INCLUDE, attrs, ""), FragmentAcc("", [], map[]), env)
         == (FragmentAcc("" + env.fprintf(StartMarker(src, false)) + env.fprintf(EndMarker(src, false)), [], map[src := ParamsOf(attrs)]), None)
  {
    assert GetInclude(attrs) == Emitted(StartMarker(src, false), EndMarker(src, false), src, ParamsOf(attrs));
  }

  lemma OnlyIncludeRead(src: string, other: string, fprintf: string -> string)
    requires PrintsVerbs(fprintf) && fprintf(src + PLACEHOLDER_END) == other + PLACEHOLDER_END && Expressible(other)
    ensures Calls(T.Parse("" + fprintf(StartMarker(src, false)) + fprintf(EndMarker(src, false)))) == {other}
  {
    var start, end := fprintf(StartMarker(src, false)), fprintf(EndMarker(src, false));
    assert "" + start + end == "" + ((start + end) + "");
    CalledInstead("", src, other, false, "", fprintf);
    assert T.Parse("" + start + end) == Then(IncludeNode(other, false), End(Complete));
  }

  /** A fragment with an optional include and nothing else in it depends on the source, and calls what Fprintf makes of it. */
  lemma OnlyInclude(attrs: seq<Attribute>, src: string, other: string, env: Foreign)
    requires GetAttr(attrs, "src") == Some(Attribute("", "src", src)) && GetAttr(attrs, "required") == None
    requires SourceOf(src) == src && Split(src, '#') == [src] && Expressible(other)
    requires PrintsVerbs(env.fprintf) && env.fprintf(src + PLACEHOLDER_END) == other + PLACEHOLDER_END
    ensures var (o, error) := FragmentEffect(Leaf(StartTag(UIC_INCLUDE, attrs, ""), Nil), FragmentAcc("", [], map[]), env);
            error.None? && o.dependencies.Keys == {src} && Calls(T.Parse(o.out)) == {other}
  {
    OnlyIncludeWritten(attrs, src, env);
    OnlyIncludeRead(src, other, env.fprintf);
  }

  lemma VerbBehind(front: string, verb: string, printed: string, fprintf: string -> string)
    requires PrintsVerbs(fprintf) && '%' !in front && fprintf(verb + PLACEHOLDER_END) == printed + PLACEHOLDER_END
    ensures fprintf(front + verb + PLACEHOLDER_END) == front + printed + PLACEHOLDER_END
  {
    Regroup(front, verb, PLACEHOLDER_END);
    Regroup(front, printed, PLACEHOLDER_END);
  }

  lemma EscapedBlankRead(src: string)
    requires src == "a%20b"
    ensures SourceOf(src) == src && Split(src, '#') == [src]
  {
    SourceAsWritten(src);
  }

  lemma EscapedBlankText(src: string, other: string)
    requires src == "a%20b" && other == "a%!b(MISSING)"
    ensures src == "a" + "%20b" && other == "a" + "%!b(MISSING)" && Expressible(other)
  {
    WithoutBracket(other);
  }

  lemma EscapedBlankPrinted(src: string, other: string, fprintf: string -> string)
    requires src == "a%20b" && other == "a%!b(MISSING)"
    requires PrintsVerbs(fprintf) && fprintf("%20b" + PLACEHOLDER_END) == "%!b(MISSING)" + PLACEHOLDER_END
    ensures fprintf(src + PLACEHOLDER_END) == other + PLACEHOLDER_END && Expressible(other)
  {
    EscapedBlankText(src, other);
    VerbBehind("a", "%20b", "%!b(MISSING)", fprintf);
  }

  /** An escaped blank in a source: Fprintf takes the escape for a verb without operand. */
  lemma EscapedBlank(attrs: seq<Attribute>, env: Foreign)
    requires GetAttr(attrs, "src") == Some(Attribute("", "src", "a%20b")) && GetAttr(attrs, "required") == None
    requires PrintsVerbs(env.fprintf) && env.fprintf("%20b" + PLACEHOLDER_END) == "%!b(MISSING)" + PLACEHOLDER_END
    ensures var (o, error) := FragmentEffect(Leaf(StartTag(UIC_INCLUDE, attrs, ""), Nil), FragmentAcc("", [], map[]), env);
            error.None? && o.dependencies.Keys == {"a%20b"} && Calls(T.Parse(o.out)) == {"a%!b(MISSING)"}
  {
    var src, other := "a%20b", "a%!b(MISSING)";
    EscapedBlankPrinted(src, other, env.fprintf);
    EscapedBlankRead(src);
    OnlyInclude(attrs, src, other, env);
  }
}
