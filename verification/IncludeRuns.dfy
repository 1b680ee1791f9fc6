/** A whole body as the template engine reads it: runs of copied text with the includes between them, in document order. */
module IncludeRuns {
  import opened Strings
  import opened Html
  import opened T = Templating
  import opened TemplatingSyntax
  import opened Includes
  import opened HtmlContentParser
  import opened TreePruning
  import opened PlacedIncludes

  /** A text is one last run, or a run in front of an include tag and what is behind the tag. */
  datatype Runs = Last(run: string) | Before(run: string, attrs: seq<Attribute>, behind: Runs)

  /** The runs of a page's pieces, with this text in front. */
  function RunsOf(ps: seq<Piece>, front: string): Runs {
    if ps == [] then Last(front)
    else match ps[0]
         case Copied(text) => RunsOf(ps[1..], front + text)
         case Included(attrs) => Before(front, attrs, RunsOf(ps[1..], ""))
  }

  function TagText(attrs: seq<Attribute>): string {
    IncludeText(SourceIn(attrs), RequiredIn(attrs))
  }

  function TagNode(attrs: seq<Attribute>): Node {
    IncludeNode(SourceIn(attrs), RequiredIn(attrs))
  }

  function RunsText(r: Runs): string {
    match r
    case Last(run) => run
    case Before(run, attrs, behind) => run + (TagText(attrs) + RunsText(behind))
  }

  /** What the runs mean each on its own, with the includes' nodes between them. */
  function RunsTree(r: Runs): Template {
    match r
    case Last(run) => T.Parse(run)
    case Before(run, attrs, behind) => Append(T.Parse(run), Then(TagNode(attrs), RunsTree(behind)))
  }

  function Sources(r: Runs): set<string> {
    match r
    case Last(_) => {}
    case Before(_, attrs, behind) => {SourceIn(attrs)} + Sources(behind)
  }

  /** The text in front of every include is open, and every source is expressible. */
  predicate AllOpen(r: Runs) {
    match r
    case Last(_) => true
    case Before(run, attrs, behind) => Open(T.Parse(run)) && Expressible(SourceIn(attrs)) && AllOpen(behind)
  }

  ghost predicate AllCallTheirSource(r: Runs) {
    match r
    case Last(_) => true
    case Before(_, attrs, behind) => CallsOf(TagNode(attrs)) == {SourceIn(attrs)} && AllCallTheirSource(behind)
  }

  // ------------------------------------------------------------------------------------- reading back

  lemma {:induction false} OpenIsRead(r: Runs)
    requires AllOpen(r)
    ensures T.Parse(RunsText(r)) == RunsTree(r) && AllCallTheirSource(r)
  {
    match r {
      case Last(_) =>
      case Before(run, attrs, behind) =>
        OpenIsRead(behind);
        ReadBackExactly(run, SourceIn(attrs), RequiredIn(attrs), RunsText(behind));
    }
  }

  lemma {:induction false} AppendPrintsLess(t: Template, rest: Template)
    ensures |Print(Append(t, rest))| <= |Print(t)| + |Print(rest)|
    ensures |Print(rest)| <= |Print(Append(t, rest))|
    ensures Print(Append(t, rest))[|Print(Append(t, rest))| - |Print(rest)|..] == Print(rest)
  {
    if t.Then? { AppendPrintsLess(t.next, rest); }
  }

  lemma NodeText(attrs: seq<Attribute>)
    requires CallsOf(TagNode(attrs)) == {SourceIn(attrs)}
    ensures PrintNode(TagNode(attrs)) == TagText(attrs)
  {
    assert SourceIn(attrs) in CallsOf(TagNode(attrs));
    CalledIsTrimmed(TagNode(attrs), SourceIn(attrs));
    IncludePrinted(SourceIn(attrs), RequiredIn(attrs));
  }

  lemma {:induction false} TreePrintsLess(r: Runs)
    requires AllCallTheirSource(r)
    ensures |Print(RunsTree(r))| <= |RunsText(r)|
  {
    match r {
      case Last(run) => PrintParse(run);
      case Before(run, attrs, behind) =>
        PrintParse(run);
        NodeText(attrs);
        TreePrintsLess(behind);
        AppendPrintsLess(T.Parse(run), Then(TagNode(attrs), RunsTree(behind)));
    }
  }

  /** Trees that print the whole text tell the parts apart. */
  lemma BehindInclude(run: string, attrs: seq<Attribute>, behind: Runs)
    requires var r := Before(run, attrs, behind); T.Parse(RunsText(r)) == RunsTree(r) && AllCallTheirSource(r)
    ensures Print(RunsTree(behind)) == RunsText(behind)
    ensures WellFormed(RunsTree(behind)) && WellFormedNode(TagNode(attrs))
  {
    var rest := Then(TagNode(attrs), RunsTree(behind));
    PrintParse(run);
    PrintParse(run + (TagText(attrs) + RunsText(behind)));
    AppendedWellFormed(T.Parse(run), rest);
    NodeText(attrs);
    TreePrintsLess(behind);
    AppendPrintsLess(T.Parse(run), rest);
    SameEnds(run + TagText(attrs), RunsText(behind), Print(Append(T.Parse(run), rest)), TagText(attrs), Print(RunsTree(behind)));
  }

  lemma SameEnds(a: string, b: string, whole: string, c: string, d: string)
    requires whole == a + b && |d| <= |b| && |whole| <= |a| + |d|
    requires |c + d| <= |whole| && whole[|whole| - |c + d|..] == c + d
    ensures d == b
  {
    assert |d| == |b|;
    assert d == (c + d)[|c|..];
    assert b == whole[|a|..];
  }

  lemma {:induction false} ReadIsOpen(r: Runs)
    requires T.Parse(RunsText(r)) == RunsTree(r) && AllCallTheirSource(r)
    ensures AllOpen(r)
  {
    match r {
      case Last(_) =>
      case Before(run, attrs, behind) =>
        BehindInclude(run, attrs, behind);
        ParsePrint(RunsTree(behind));
        ReadIsOpen(behind);
        assert SourceIn(attrs) in CallsOf(TagNode(attrs));
        CalledIsExpressible(TagNode(attrs), SourceIn(attrs));
        ReadBackExactly(run, SourceIn(attrs), RequiredIn(attrs), RunsText(behind));
    }
  }

  /** A text with any number of includes is read back as its runs with one node for every include between them, in order, each
      calling exactly its source, if and only if every run in front of an include is open and every source is expressible. */
  lemma ReadInOrderExactly(r: Runs)
    ensures T.Parse(RunsText(r)) == RunsTree(r) && AllCallTheirSource(r) <==> AllOpen(r)
  {
    if AllOpen(r) {
      OpenIsRead(r);
    } else if T.Parse(RunsText(r)) == RunsTree(r) && AllCallTheirSource(r) {
      ReadIsOpen(r);
    }
  }

  // --------------------------------------------------------------------------------- runs of plain text

  /** Runs without a marker. */
  predicate Plain(r: Runs) {
    match r
    case Last(run) => !Contains(run, PLACEHOLDER_START)
    case Before(run, attrs, behind) => Separated(run) && Expressible(SourceIn(attrs)) && Plain(behind)
  }

  function LiteralOf(run: string, rest: Template): Template {
    if run == "" then rest else Then(Literal(run), rest)
  }

  /** A literal for every run that is not empty, and a node for every include. */
  function LiteralsAndIncludes(r: Runs): Template {
    match r
    case Last(run) => LiteralOf(run, End(Complete))
    case Before(run, attrs, behind) => LiteralOf(run, Then(TagNode(attrs), LiteralsAndIncludes(behind)))
  }

  lemma PlainRun(run: string)
    requires !Contains(run, PLACEHOLDER_START)
    ensures T.Parse(run) == LiteralOf(run, End(Complete))
    ensures Separated(run) ==> Open(T.Parse(run))
  {
  }

  lemma InFrontOfInclude(run: string, node: Node, rest: Template)
    ensures Append(LiteralOf(run, End(Complete)), Then(node, rest)) == LiteralOf(run, Then(node, rest))
    ensures Calls(LiteralOf(run, Then(node, rest))) == CallsOf(node) + Calls(rest)
  {
    assert Calls(Then(node, rest)) == CallsOf(node) + Calls(rest);
  }

  lemma {:induction false} PlainTree(r: Runs)
    requires Plain(r)
    ensures AllOpen(r) && RunsTree(r) == LiteralsAndIncludes(r)
    ensures Calls(LiteralsAndIncludes(r)) == Sources(r)
  {
    match r {
      case Last(run) => PlainRun(run);
      case Before(run, attrs, behind) =>
        PlainRun(run);
        PlainTree(behind);
        IncludeNodeCalls(SourceIn(attrs), RequiredIn(attrs));
        InFrontOfInclude(run, TagNode(attrs), LiteralsAndIncludes(behind));
    }
  }

  /** Text without markers around the includes: the literals and the includes in order, so exactly the sources are called. */
  lemma PlainIsRead(r: Runs)
    requires Plain(r)
    ensures T.Parse(RunsText(r)) == LiteralsAndIncludes(r) && Calls(T.Parse(RunsText(r))) == Sources(r)
  {
    PlainTree(r);
    OpenIsRead(r);
  }

  // ----------------------------------------------------------------------------- bodies and fragments

  lemma {:induction false} RunsOfText(ps: seq<Piece>, front: string)
    ensures RunsText(RunsOf(ps, front)) == front + TextOf(ps, Verbatim)
  {
    if ps != [] {
      match ps[0] {
        case Copied(text) =>
          RunsOfText(ps[1..], front + text);
          Regroup(front, text, TextOf(ps[1..], Verbatim));
        case Included(attrs) =>
          RunsOfText(ps[1..], "");
          assert "" + TextOf(ps[1..], Verbatim) == TextOf(ps[1..], Verbatim);
      }
    }
  }

  function SourcesIn(ps: seq<Piece>): set<string> {
    set p | p in ps && p.Included? :: SourceIn(p.attrs)
  }

  lemma {:induction false} RunsOfSources(ps: seq<Piece>, front: string)
    ensures Sources(RunsOf(ps, front)) == SourcesIn(ps)
  {
    if ps != [] {
      assert ps == [ps[0]] + ps[1..];
      match ps[0] {
        case Copied(text) => RunsOfSources(ps[1..], front + text);
        case Included(attrs) => RunsOfSources(ps[1..], "");
      }
    }
  }

  function TrimmedEnd(r: Runs): Runs {
    match r
    case Last(run) => Last(TrimBlanksEnd(run))
    case Before(run, attrs, behind) => Before(run, attrs, TrimmedEnd(behind))
  }

  /** The first run without the blanks it starts with, the last one without those it ends with. */
  function TrimmedRuns(r: Runs): Runs {
    match r
    case Last(run) => Last(TrimBlanks(run))
    case Before(run, attrs, behind) => Before(TrimBlanksStart(run), attrs, TrimmedEnd(behind))
  }

  lemma {:induction false} TrimmedEndText(m: string, r: Runs)
    requires m != "" && NotBlank(m[|m| - 1])
    ensures TrimBlanksEnd(m + RunsText(r)) == m + RunsText(TrimmedEnd(r))
    decreases r
  {
    match r {
      case Last(run) => TrimEndAround(m, run);
      case Before(run, attrs, behind) =>
        var t := TagText(attrs);
        IncludeTextEnds(SourceIn(attrs), RequiredIn(attrs));
        TrimmedEndText(m + (run + t), behind);
        BehindTag(m, run, t, RunsText(behind));
        BehindTag(m, run, t, RunsText(TrimmedEnd(behind)));
    }
  }

  lemma BehindTag(m: string, run: string, t: string, rest: string)
    ensures m + (run + (t + rest)) == (m + (run + t)) + rest
  {
  }

  lemma TrimmedText(r: Runs)
    ensures TrimBlanks(RunsText(r)) == RunsText(TrimmedRuns(r))
  {
    match r {
      case Last(_) =>
      case Before(run, attrs, behind) =>
        var left, t := TrimBlanksStart(run), TagText(attrs);
        IncludeTextEnds(SourceIn(attrs), RequiredIn(attrs));
        TrimStartAround(run, t + RunsText(behind));
        TrimmedEndText(left + t, behind);
        Regroup(left, t, RunsText(behind));
        Regroup(left, t, RunsText(TrimmedEnd(behind)));
    }
  }

  lemma {:induction false} TrimmedEndSources(r: Runs)
    ensures Sources(TrimmedEnd(r)) == Sources(r)
  {
    if r.Before? { TrimmedEndSources(r.behind); }
  }

  lemma RunsOfBody(f: Forest, page: PageParts, env: Foreign)
    requires BodyContent(f) && BodyEffect(f, BodyAcc(page, "", []), env).1.None?
    ensures TrimBlanks(BodyEffect(f, BodyAcc(page, "", []), env).0.out) == RunsText(TrimmedRuns(RunsOf(BodyPieces(f), "")))
  {
    BodyWritten(f, BodyAcc(page, "", []), env);
    RunsOfText(BodyPieces(f), "");
    TrimmedText(RunsOf(BodyPieces(f), ""));
  }

  lemma TrimmedSources(ps: seq<Piece>)
    ensures Sources(TrimmedRuns(RunsOf(ps, ""))) == SourcesIn(ps)
  {
    var r := RunsOf(ps, "");
    RunsOfSources(ps, "");
    if r.Before? { TrimmedEndSources(r.behind); }
  }

  /** The whole default fragment of a well-nested body: it is read back as the runs of copied text with the include nodes between
      them, in the order of the document, if and only if every run in front of an include is open and every source is expressible.
      Without markers in the copied text, the runs are literals, and exactly the sources of the body's include tags are called. */
  lemma BodyRead(f: Forest, page: PageParts, env: Foreign)
    requires BodyContent(f) && BodyEffect(f, BodyAcc(page, "", []), env).1.None?
    requires "" !in BodyEffect(f, BodyAcc(page, "", []), env).0.page.body
    ensures var r, parts := TrimmedRuns(RunsOf(BodyPieces(f), "")), WithDefaultFragment(BodyEffect(f, BodyAcc(page, "", []), env).0);
            RunsText(r) != "" ==>
              && "" in parts.body && parts.body[""].content == RunsText(r)
              && (T.Parse(parts.body[""].content) == RunsTree(r) && AllCallTheirSource(r) <==> AllOpen(r))
              && (Plain(r) ==> T.Parse(parts.body[""].content) == LiteralsAndIncludes(r)
                               && Calls(T.Parse(parts.body[""].content)) == SourcesIn(BodyPieces(f)))
  {
    var r := TrimmedRuns(RunsOf(BodyPieces(f), ""));
    RunsOfBody(f, page, env);
    ReadInOrderExactly(r);
    TrimmedSources(BodyPieces(f));
    if Plain(r) { PlainIsRead(r); }
  }

  lemma {:induction false} PrintedVerbatim(ps: seq<Piece>, fprintf: string -> string)
    requires PrintsVerbs(fprintf) && forall src :: src in SourcesIn(ps) ==> '%' !in src
    ensures TextOf(ps, fprintf) == TextOf(ps, Verbatim)
  {
    if ps != [] {
      assert ps == [ps[0]] + ps[1..];
      assert SourcesIn(ps[1..]) <= SourcesIn(ps);
      PrintedVerbatim(ps[1..], fprintf);
      if ps[0].Included? {
        assert SourceIn(ps[0].attrs) in SourcesIn(ps);
        MarkersKept(SourceIn(ps[0].attrs), RequiredIn(ps[0].attrs), fprintf);
      }
    }
  }

  /** The same for a whole well-nested fragment without a verb in its sources. */
  lemma FragmentRead(f: Forest, env: Foreign)
    requires FragmentEffect(f, FragmentAcc("", [], map[]), env).1.None? && PrintsVerbs(env.fprintf)
    requires forall src :: src in SourcesIn(FragmentPieces(f)) ==> '%' !in src
    ensures var r, content := RunsOf(FragmentPieces(f), ""), FragmentEffect(f, FragmentAcc("", [], map[]), env).0.out;
            && content == RunsText(r)
            && (T.Parse(content) == RunsTree(r) && AllCallTheirSource(r) <==> AllOpen(r))
            && (Plain(r) ==> T.Parse(content) == LiteralsAndIncludes(r) && Calls(T.Parse(content)) == SourcesIn(FragmentPieces(f)))
  {
    var ps := FragmentPieces(f);
    var r := RunsOf(ps, "");
    FragmentWritten(f, FragmentAcc("", [], map[]), env);
    PrintedVerbatim(ps, env.fprintf);
    RunsOfText(ps, "");
    ReadInOrderExactly(r);
    if Plain(r) {
      PlainIsRead(r);
      RunsOfSources(ps, "");
    }
  }
}
