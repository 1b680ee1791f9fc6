/** The parser on well-nested documents: what the scans over tokens make of a forest of elements. */
module TreePruning {
  import opened Wrappers
  import opened Html
  import opened Templating
  import opened Includes
  import opened HtmlContentParser

  /** Texts, comments, void and self-closing tags are leaves; all other elements have an end tag. */
  datatype Forest =
    | Nil
    | Leaf(token: Token, next: Forest)
    | Element(start: Token, children: Forest, end: Token, next: Forest)

  function Flatten(f: Forest): seq<Token> {
    match f
    case Nil => []
    case Leaf(t, next) => [t] + Flatten(next)
    case Element(start, children, end, next) => [start] + Flatten(children) + [end] + Flatten(next)
  }

  predicate WellNested(f: Forest) {
    match f
    case Nil => true
    case Leaf(t, next) => !t.EndTag? && !OpensSubtree(t) && WellNested(next)
    case Element(start, children, end, next) =>
      OpensSubtree(start) && IsEnd(end, start.name) && WellNested(children) && WellNested(next)
  }

  /** The tokens of an element and what follows, seen from its start tag. */
  lemma FlattenElement(start: Token, children: Forest, end: Token, next: Forest, ts: seq<Token>)
    ensures var all := Flatten(Element(start, children, end, next)) + ts;
            all != [] && all[0] == start && all[1..] == Flatten(children) + ([end] + (Flatten(next) + ts))
  {
    var a, b := Flatten(children), Flatten(next);
    assert Flatten(Element(start, children, end, next)) == [start] + a + [end] + b;
    assert [start] + a + [end] + b + ts == [start] + (a + ([end] + (b + ts)));
  }

  lemma FlattenLeaf(t: Token, next: Forest, ts: seq<Token>)
    ensures var all := Flatten(Leaf(t, next)) + ts;
            all != [] && all[0] == t && all[1..] == Flatten(next) + ts
  {
  }

  /** Skipping over a well-nested forest changes nothing about the depth, whatever the names of its elements. */
  lemma {:induction false} SkipForest(f: Forest, ts: seq<Token>, depth: nat)
    requires WellNested(f)
    ensures Skip(Flatten(f) + ts, depth) == Skip(ts, depth)
  {
    match f {
      case Nil =>
        assert [] + ts == ts;
      case Leaf(t, next) =>
        FlattenLeaf(t, next, ts);
        SkipForest(next, ts, depth);
      case Element(start, children, end, next) =>
        FlattenElement(start, children, end, next, ts);
        var behind := [end] + (Flatten(next) + ts);
        SkipForest(children, behind, depth + 1);
        assert behind[1..] == Flatten(next) + ts;
        SkipForest(next, ts, depth);
    }
  }

  /** The skipper stops exactly behind the end tag that belongs to the removed start tag. */
  lemma SkipStopsAtEnd(start: Token, children: Forest, end: Token, ts: seq<Token>)
    requires OpensSubtree(start) && end.EndTag? && WellNested(children)
    ensures BehindRemoved(start, Flatten(children) + ([end] + ts)) == ts
  {
    SkipForest(children, [end] + ts, 0);
    assert ([end] + ts)[1..] == ts;
  }

  // ---------------------------------------------------------------------------------------------- head

  /** Nothing removed, no meta script and no stylesheet link. */
  function PruneHead(f: Forest): Forest {
    match f
    case Nil => Nil
    case Leaf(t, next) => if IsRemoved(t) || IsStylesheet(t) then PruneHead(next) else Leaf(t, PruneHead(next))
    case Element(start, children, end, next) =>
      if IsRemoved(start) || IsMetaScript(start) then PruneHead(next)
      else Element(start, PruneHead(children), end, PruneHead(next))
  }

  /** The stylesheet links that are not removed, in document order. */
  function HeadSheets(f: Forest): seq<Stylesheet> {
    match f
    case Nil => []
    case Leaf(t, next) => (if !IsRemoved(t) && IsStylesheet(t) then [t.attrs] else []) + HeadSheets(next)
    case Element(start, children, _, next) =>
      (if IsRemoved(start) || IsMetaScript(start) then [] else HeadSheets(children)) + HeadSheets(next)
  }

  /** The meta data after the meta scripts, in document order. */
  function HeadMeta(f: Forest, env: Foreign, meta: map<string, Value>): map<string, Value> {
    match f
    case Nil => meta
    case Leaf(_, next) => HeadMeta(next, env, meta)
    case Element(start, children, _, next) =>
      if IsRemoved(start) then HeadMeta(next, env, meta)
      else if IsMetaScript(start) then HeadMeta(next, env, MetaOutcome(children, meta, env).0)
      else HeadMeta(next, env, HeadMeta(children, env, meta))
  }

  /** Meta scripts have an end tag, and no element of the head is named head itself. */
  predicate HeadContent(f: Forest) {
    match f
    case Nil => true
    case Leaf(t, next) => (IsMetaScript(t) ==> IsRemoved(t)) && HeadContent(next)
    case Element(start, children, _, next) =>
      HeadContent(next) && (!IsRemoved(start) && !IsMetaScript(start) ==> !IsNamed(start, "head") && HeadContent(children))
  }

  /** What a meta script with this content comes to. */
  function MetaOutcome(children: Forest, meta: map<string, Value>, env: Foreign): (map<string, Value>, Option<ParseError>) {
    if !children.Leaf? || !children.token.TextToken? then (meta, Some(MetaTextExpected))
    else
      match env.decode(children.token.raw)
      case None => (meta, Some(MetaJsonInvalid))
      case Some(more) => (AddMeta(meta, more), if children.next == Nil then None else Some(MetaNotClosed))
  }

  /** The first meta script in document order that is in error. */
  function HeadError(f: Forest, env: Foreign): Option<ParseError> {
    match f
    case Nil => None
    case Leaf(_, next) => HeadError(next, env)
    case Element(start, children, _, next) =>
      var own := if IsRemoved(start) then None else if IsMetaScript(start) then MetaOutcome(children, map[], env).1 else HeadError(children, env);
      if own.Some? then own else HeadError(next, env)
  }

  /** What the forest contributes up to the first error. */
  function HeadRun(f: Forest, acc: HeadAcc, env: Foreign): (HeadAcc, Option<ParseError>) {
    match f
    case Nil => (acc, None)
    case Leaf(t, next) => HeadRun(next, HeadLeaf(t, acc), env)
    case Element(start, children, end, next) =>
      if IsRemoved(start) then HeadRun(next, acc, env)
      else if IsMetaScript(start) then
        var (meta, error) := MetaOutcome(children, acc.meta, env);
        if error.Some? then (acc.(meta := meta), error) else HeadRun(next, acc.(meta := meta), env)
      else
        var (inner, error) := HeadRun(children, acc.(out := acc.out + start.raw), env);
        if error.Some? then (inner, error) else HeadRun(next, inner.(out := inner.out + end.raw), env)
  }

  function HeadLeaf(t: Token, acc: HeadAcc): HeadAcc {
    if IsRemoved(t) then acc else if IsStylesheet(t) then acc.(sheets := acc.sheets + [t.attrs]) else acc.(out := acc.out + t.raw)
  }

  function HeadEffect(f: Forest, acc: HeadAcc, env: Foreign): HeadAcc {
    HeadAcc(acc.out + Raw(Flatten(PruneHead(f))), acc.sheets + HeadSheets(f), HeadMeta(f, env, acc.meta))
  }

  function FirstToken(f: Forest): Token
    requires f != Nil
  {
    if f.Leaf? then f.token else f.start
  }

  lemma FirstOfForest(f: Forest, rest: seq<Token>)
    requires f != Nil
    ensures Flatten(f) + rest != [] && (Flatten(f) + rest)[0] == FirstToken(f)
  {
    assert Flatten(f) != [] && Flatten(f)[0] == FirstToken(f);
  }

  lemma MetaScanned(children: Forest, end: Token, ts: seq<Token>, meta: map<string, Value>, env: Foreign)
    requires WellNested(children) && IsEnd(end, "script")
    ensures var (meta', error) := MetaOutcome(children, meta, env);
            MetaScan(Flatten(children) + ([end] + ts), meta, env) == Outcome(meta', if error.Some? then [] else ts, error)
  {
    if children == Nil {
      assert [] + ([end] + ts) == [end] + ts;
    } else {
      FirstOfForest(children, [end] + ts);
      if children.Leaf? && children.token.TextToken? { MetaTextScanned(children, end, ts, meta, env); }
    }
  }

  lemma MetaTextScanned(children: Forest, end: Token, ts: seq<Token>, meta: map<string, Value>, env: Foreign)
    requires WellNested(children) && IsEnd(end, "script") && children.Leaf? && children.token.TextToken?
    ensures var (meta', error) := MetaOutcome(children, meta, env);
            MetaScan(Flatten(children) + ([end] + ts), meta, env) == Outcome(meta', if error.Some? then [] else ts, error)
  {
    var all, behind := Flatten(children) + ([end] + ts), Flatten(children.next) + ([end] + ts);
    FlattenLeaf(children.token, children.next, [end] + ts);
    assert all[1..] == behind && all[1] == behind[0] && all[2..] == behind[1..];
    if children.next == Nil {
      assert behind == [end] + ts && behind[1..] == ts;
    } else {
      FirstOfForest(children.next, [end] + ts);
    }
  }

  /** Scanning the tokens of a forest is scanning what follows, with the forest's contribution added, or fails as it does. */
  lemma {:induction false} HeadForest(f: Forest, ts: seq<Token>, failure: Option<string>, acc: HeadAcc, env: Foreign)
    requires WellNested(f) && HeadContent(f)
    ensures HeadScan(Flatten(f) + ts, failure, acc, env) ==
            var (acc', error) := HeadRun(f, acc, env);
            if error.Some? then Outcome(acc', [], error) else HeadScan(ts, failure, acc', env)
  {
    match f {
      case Nil =>
        assert [] + ts == ts;
      case Leaf(t, next) =>
        FlattenLeaf(t, next, ts);
        HeadForest(next, ts, failure, HeadLeaf(t, acc), env);
      case Element(start, children, end, next) =>
        FlattenElement(start, children, end, next, ts);
        var behind := [end] + (Flatten(next) + ts);
        assert behind[0] == end && behind[1..] == Flatten(next) + ts;
        if IsRemoved(start) {
          SkipStopsAtEnd(start, children, end, Flatten(next) + ts);
          HeadForest(next, ts, failure, acc, env);
        } else if IsMetaScript(start) {
          MetaScanned(children, end, Flatten(next) + ts, acc.meta, env);
          var (meta, error) := MetaOutcome(children, acc.meta, env);
          if error.None? { HeadForest(next, ts, failure, acc.(meta := meta), env); }
        } else {
          var acc1 := acc.(out := acc.out + start.raw);
          HeadForest(children, behind, failure, acc1, env);
          var (acc2, error) := HeadRun(children, acc1, env);
          if error.None? { HeadForest(next, ts, failure, acc2.(out := acc2.out + end.raw), env); }
        }
    }
  }

  lemma MetaErrorAnyway(children: Forest, meta: map<string, Value>, env: Foreign)
    ensures MetaOutcome(children, meta, env).1 == MetaOutcome(children, map[], env).1
  {
  }

  /** Without error the forest contributes the text of its pruned form, its stylesheets and its meta data. */
  lemma {:induction false} HeadRunPrunes(f: Forest, acc: HeadAcc, env: Foreign)
    requires WellNested(f) && HeadContent(f)
    ensures HeadRun(f, acc, env).1 == HeadError(f, env)
    ensures HeadError(f, env).None? ==> HeadRun(f, acc, env).0 == HeadEffect(f, acc, env)
  {
    match f {
      case Nil =>
        assert acc.out + "" == acc.out && acc.sheets + [] == acc.sheets;
      case Leaf(t, next) =>
        HeadRunPrunes(next, HeadLeaf(t, acc), env);
        LeafEffect(t, next, acc, env);
      case Element(start, children, end, next) =>
        if IsRemoved(start) {
          HeadRunPrunes(next, acc, env);
          RemovedEffect(f, acc, env);
        } else if IsMetaScript(start) {
          var (meta, error) := MetaOutcome(children, acc.meta, env);
          MetaErrorAnyway(children, acc.meta, env);
          HeadRunPrunes(next, acc.(meta := meta), env);
          MetaEffect(f, acc, env);
        } else {
          var acc1 := acc.(out := acc.out + start.raw);
          HeadRunPrunes(children, acc1, env);
          var inner := HeadRun(children, acc1, env).0;
          HeadRunPrunes(next, inner.(out := inner.out + end.raw), env);
          if HeadError(children, env).None? { ElementEffect(f, acc, env); }
        }
    }
  }

  lemma LeafEffect(t: Token, next: Forest, acc: HeadAcc, env: Foreign)
    requires !t.EndTag?
    ensures HeadEffect(next, HeadLeaf(t, acc), env) == HeadEffect(Leaf(t, next), acc, env)
  {
    assert ([t] + Flatten(PruneHead(next)))[1..] == Flatten(PruneHead(next));
    assert acc.out + (t.raw + Raw(Flatten(PruneHead(next)))) == acc.out + t.raw + Raw(Flatten(PruneHead(next)));
    assert [] + HeadSheets(next) == HeadSheets(next);
    if !IsRemoved(t) && IsStylesheet(t) {
      assert acc.sheets + ([t.attrs] + HeadSheets(next)) == acc.sheets + [t.attrs] + HeadSheets(next);
    }
  }

  lemma RemovedEffect(f: Forest, acc: HeadAcc, env: Foreign)
    requires f.Element? && IsRemoved(f.start)
    ensures HeadEffect(f.next, acc, env) == HeadEffect(f, acc, env)
  {
    assert [] + HeadSheets(f.next) == HeadSheets(f.next);
  }

  lemma MetaEffect(f: Forest, acc: HeadAcc, env: Foreign)
    requires f.Element? && !IsRemoved(f.start) && IsMetaScript(f.start)
    ensures HeadEffect(f.next, acc.(meta := MetaOutcome(f.children, acc.meta, env).0), env) == HeadEffect(f, acc, env)
  {
    assert [] + HeadSheets(f.next) == HeadSheets(f.next);
  }

  lemma RawElement(start: Token, children: seq<Token>, end: Token, next: seq<Token>)
    ensures Raw([start] + children + [end] + next) == start.raw + Raw(children) + end.raw + Raw(next)
  {
    RawConcat([start] + children + [end], next);
    RawConcat([start] + children, [end]);
    RawConcat([start], children);
    assert Raw([start]) == start.raw + Raw([]) && Raw([end]) == end.raw + Raw([]);
  }

  lemma Regrouped(a: string, b: string, c: string, d: string, e: string)
    ensures a + (b + c + d + e) == a + b + c + d + e
  {
  }

  lemma ElementEffect(f: Forest, acc: HeadAcc, env: Foreign)
    requires f.Element? && !IsRemoved(f.start) && !IsMetaScript(f.start)
    ensures var inner := HeadEffect(f.children, acc.(out := acc.out + f.start.raw), env);
            HeadEffect(f.next, inner.(out := inner.out + f.end.raw), env) == HeadEffect(f, acc, env)
  {
    var c, n := Flatten(PruneHead(f.children)), Flatten(PruneHead(f.next));
    RawElement(f.start, c, f.end, n);
    Regrouped(acc.out, f.start.raw, Raw(c), f.end.raw, Raw(n));
    SheetsRegrouped(acc.sheets, HeadSheets(f.children), HeadSheets(f.next));
  }

  lemma SheetsRegrouped(a: seq<Stylesheet>, b: seq<Stylesheet>, c: seq<Stylesheet>)
    ensures a + (b + c) == a + b + c
  {
  }

  /** Parsing a well-nested head gives the text of the pruned forest, its stylesheets and its meta data, and stops behind the end
      tag of the head; or it fails with the first meta script in error. */
  lemma HeadPruned(f: Forest, end: Token, ts: seq<Token>, failure: Option<string>, meta: map<string, Value>, env: Foreign)
    requires WellNested(f) && HeadContent(f) && IsEnd(end, "head")
    ensures var o := HeadScan(Flatten(f) + ([end] + ts), failure, HeadAcc("", [], meta), env);
            && o.error == HeadError(f, env)
            && (o.error.None? ==> o.rest == ts && o.acc == HeadAcc(Raw(Flatten(PruneHead(f))), HeadSheets(f), HeadMeta(f, env, meta)))
  {
    HeadForest(f, [end] + ts, failure, HeadAcc("", [], meta), env);
    HeadRunPrunes(f, HeadAcc("", [], meta), env);
    assert ([end] + ts)[0] == end && ([end] + ts)[1..] == ts;
    assert "" + Raw(Flatten(PruneHead(f))) == Raw(Flatten(PruneHead(f))) && [] + HeadSheets(f) == HeadSheets(f);
  }

  // ---------------------------------------------------------------------------------- fragments and body

  /** One tag or text inside a fragment. */
  function FragmentToken(t: Token, acc: FragmentAcc, env: Foreign): (FragmentAcc, Option<ParseError>) {
    if IsNamed(t, UIC_INCLUDE) then
      var e := GetInclude(t.attrs);
      if e.Refused? then (acc, Some(IncludeRefused(e.error))) else (AddInclude(acc, e, env), None)
    else if IsRemoved(t) then (acc, None)
    else if IsStylesheet(t) then (acc.(sheets := acc.sheets + [t.attrs]), None)
    else (acc.(out := acc.out + t.raw), None)
  }

  /** What the forest inside a fragment contributes, up to the first error. */
  function FragmentEffect(f: Forest, acc: FragmentAcc, env: Foreign): (FragmentAcc, Option<ParseError>) {
    match f
    case Nil => (acc, None)
    case Leaf(t, next) =>
      var (acc', error) := FragmentToken(t, acc, env);
      if error.Some? then (acc', error) else FragmentEffect(next, acc', env)
    case Element(start, children, end, next) =>
      // a removed include is an include all the same
      if IsRemoved(start) && !IsNamed(start, UIC_INCLUDE) then FragmentEffect(next, acc, env)
      else
        var (acc1, error1) := FragmentToken(start, acc, env);
        if error1.Some? then (acc1, error1)
        else
          var (acc2, error2) := FragmentEffect(children, acc1, env);
          if error2.Some? then (acc2, error2) else FragmentEffect(next, acc2.(out := acc2.out + end.raw), env)
  }

  /** No fragment or tail inside the fragment. */
  predicate FragmentContent(f: Forest) {
    match f
    case Nil => true
    case Leaf(_, next) => FragmentContent(next)
    case Element(start, children, _, next) =>
      && FragmentContent(next)
      && (IsNamed(start, UIC_INCLUDE) || !IsRemoved(start) ==> !StartsFragment(start) && FragmentContent(children))
  }

  /** One start tag. */
  lemma FragmentStart(start: Token, rest: seq<Token>, failure: Option<string>, acc: FragmentAcc, env: Foreign)
    requires IsOpenTag(start) && (IsNamed(start, UIC_INCLUDE) || !IsRemoved(start))
    ensures FragmentScan([start] + rest, failure, acc, env) ==
            var (acc', error) := FragmentToken(start, acc, env);
            if error.Some? then Outcome(acc', [], error) else FragmentScan(rest, failure, acc', env)
  {
    assert ([start] + rest)[0] == start && ([start] + rest)[1..] == rest;
  }

  /** How scanning the content of a fragment ends: behind the content, or with an error; or at an end tag inside, with these
      tokens of the content left over. */
  datatype Walk = Through(acc: FragmentAcc, error: Option<ParseError>) | ClosedIn(acc: FragmentAcc, rest: seq<Token>)

  function FragmentWalk(f: Forest, acc: FragmentAcc, env: Foreign): Walk {
    match f
    case Nil => Through(acc, None)
    case Leaf(t, next) =>
      var (acc', error) := FragmentToken(t, acc, env);
      if error.Some? then Through(acc', error) else FragmentWalk(next, acc', env)
    case Element(start, children, end, next) =>
      if IsRemoved(start) && !IsNamed(start, UIC_INCLUDE) then FragmentWalk(next, acc, env)
      else
        var (acc1, error1) := FragmentToken(start, acc, env);
        if error1.Some? then Through(acc1, error1)
        else
          match FragmentWalk(children, acc1, env)
          case ClosedIn(acc2, rest) => ClosedIn(acc2, rest + ([end] + Flatten(next)))
          case Through(acc2, error2) =>
            if error2.Some? then Through(acc2, error2)
            else if StartsFragment(start) then ClosedIn(acc2, Flatten(next))
            else FragmentWalk(next, acc2.(out := acc2.out + end.raw), env)
  }

  /** What a scan makes of such an end. */
  function Continued(w: Walk, ts: seq<Token>, failure: Option<string>, env: Foreign): Outcome<FragmentAcc> {
    match w
    case Through(acc, error) => if error.Some? then Outcome(acc, [], error) else FragmentScan(ts, failure, acc, env)
    case ClosedIn(acc, rest) => Outcome(acc, rest + ts, None)
  }

  /** Scanning any well-nested content. */
  lemma {:induction false} AnyFragment(f: Forest, ts: seq<Token>, failure: Option<string>, acc: FragmentAcc, env: Foreign)
    requires WellNested(f)
    ensures FragmentScan(Flatten(f) + ts, failure, acc, env) == Continued(FragmentWalk(f, acc, env), ts, failure, env)
    decreases f, 1
  {
    match f {
      case Nil =>
        assert [] + ts == ts;
      case Leaf(t, next) =>
        FlattenLeaf(t, next, ts);
        var (acc', error) := FragmentToken(t, acc, env);
        if error.None? { AnyFragment(next, ts, failure, acc', env); }
      case Element(start, children, end, next) =>
        FlattenElement(start, children, end, next, ts);
        if IsRemoved(start) && !IsNamed(start, UIC_INCLUDE) {
          SkipStopsAtEnd(start, children, end, Flatten(next) + ts);
          AnyFragment(next, ts, failure, acc, env);
        } else {
          AnySubtree(f, ts, failure, acc, env);
        }
    }
  }

  lemma {:induction false} AnySubtree(f: Forest, ts: seq<Token>, failure: Option<string>, acc: FragmentAcc, env: Foreign)
    requires WellNested(f) && f.Element? && (IsNamed(f.start, UIC_INCLUDE) || !IsRemoved(f.start))
    ensures FragmentScan([f.start] + (Flatten(f.children) + ([f.end] + (Flatten(f.next) + ts))), failure, acc, env)
         == Continued(FragmentWalk(f, acc, env), ts, failure, env)
    decreases f, 0
  {
    var behind := [f.end] + (Flatten(f.next) + ts);
    FragmentStart(f.start, Flatten(f.children) + behind, failure, acc, env);
    var (acc1, error1) := FragmentToken(f.start, acc, env);
    if error1.None? {
      AnyFragment(f.children, behind, failure, acc1, env);
      match FragmentWalk(f.children, acc1, env) {
        case ClosedIn(_, rest) => LeftOver(rest, f.end, Flatten(f.next), ts);
        case Through(acc2, error2) =>
          if error2.None? {
            BehindEndTag(f.end, Flatten(f.next) + ts, failure, acc2, env);
            if !StartsFragment(f.start) { AnyFragment(f.next, ts, failure, acc2.(out := acc2.out + f.end.raw), env); }
          }
      }
    }
  }

  lemma LeftOver(rest: seq<Token>, end: Token, next: seq<Token>, ts: seq<Token>)
    ensures rest + ([end] + (next + ts)) == rest + ([end] + next) + ts
  {
  }

  lemma BehindEndTag(end: Token, ts: seq<Token>, failure: Option<string>, acc: FragmentAcc, env: Foreign)
    requires end.EndTag?
    ensures FragmentScan([end] + ts, failure, acc, env) ==
            if end.name == UIC_FRAGMENT || end.name == UIC_TAIL then Outcome(acc, ts, None)
            else FragmentScan(ts, failure, acc.(out := acc.out + end.raw), env)
  {
    assert ([end] + ts)[0] == end && ([end] + ts)[1..] == ts;
  }

  lemma {:induction false} WalkOfContent(f: Forest, acc: FragmentAcc, env: Foreign)
    requires WellNested(f) && FragmentContent(f)
    ensures var (acc', error) := FragmentEffect(f, acc, env); FragmentWalk(f, acc, env) == Through(acc', error)
  {
    match f {
      case Nil =>
      case Leaf(t, next) => WalkOfContent(next, FragmentToken(t, acc, env).0, env);
      case Element(start, children, end, next) =>
        if IsRemoved(start) && !IsNamed(start, UIC_INCLUDE) {
          WalkOfContent(next, acc, env);
        } else {
          var acc1 := FragmentToken(start, acc, env).0;
          var acc2 := FragmentEffect(children, acc1, env).0;
          WalkOfContent(children, acc1, env);
          WalkOfContent(next, acc2.(out := acc2.out + end.raw), env);
        }
    }
  }

  /** Without another fragment inside, scanning the content is scanning what follows with the content's effect, or fails as it does. */
  lemma FragmentForest(f: Forest, ts: seq<Token>, failure: Option<string>, acc: FragmentAcc, env: Foreign)
    requires WellNested(f) && FragmentContent(f)
    ensures FragmentScan(Flatten(f) + ts, failure, acc, env) ==
            var (acc', error) := FragmentEffect(f, acc, env);
            if error.Some? then Outcome(acc', [], error) else FragmentScan(ts, failure, acc', env)
  {
    AnyFragment(f, ts, failure, acc, env);
    WalkOfContent(f, acc, env);
  }

  /** A fragment or tail: its end tag closes it, and its content is added to the page. */
  function AddedFragment(start: Token, children: Forest, acc: BodyAcc, env: Foreign): (BodyAcc, Option<ParseError>)
    requires IsOpenTag(start)
  {
    var (f, error) := FragmentEffect(children, FragmentAcc("", [], map[]), env);
    if error.Some? then (acc, error) else (acc.(page := AddFragment(acc.page, start, f)), None)
  }

  function BodyEffect(f: Forest, acc: BodyAcc, env: Foreign): (BodyAcc, Option<ParseError>) {
    match f
    case Nil => (acc, None)
    case Leaf(t, next) =>
      if IsRemoved(t) then BodyEffect(next, acc, env)
      else
        var (acc', error) := TagInBody(t, acc, env);
        if error.Some? then (acc', error) else BodyEffect(next, acc', env)
    case Element(start, children, end, next) =>
      if IsRemoved(start) then BodyEffect(next, acc, env)
      else if StartsFragment(start) then
        var (acc', error) := AddedFragment(start, children, acc, env);
        if error.Some? then (acc', error) else BodyEffect(next, acc', env)
      else
        var (acc1, error1) := TagInBody(start, acc, env);
        if error1.Some? then (acc1, error1)
        else
          var (acc2, error2) := BodyEffect(children, acc1, env);
          if error2.Some? then (acc2, error2) else BodyEffect(next, acc2.(out := acc2.out + end.raw), env)
  }

  /** Fragments and tails are elements and are not nested, and no element of the body is named body itself. */
  predicate BodyContent(f: Forest) {
    match f
    case Nil => true
    case Leaf(t, next) => (StartsFragment(t) ==> IsRemoved(t)) && BodyContent(next)
    case Element(start, children, _, next) =>
      && BodyContent(next)
      && (!IsRemoved(start) ==>
            if StartsFragment(start) then FragmentContent(children) else !IsNamed(start, "body") && BodyContent(children))
  }

  lemma FragmentElement(start: Token, children: Forest, end: Token, ts: seq<Token>, failure: Option<string>, env: Foreign)
    requires StartsFragment(start) && IsEnd(end, start.name) && WellNested(children) && FragmentContent(children)
    ensures FragmentScan(Flatten(children) + ([end] + ts), failure, FragmentAcc("", [], map[]), env) ==
            var (f, error) := FragmentEffect(children, FragmentAcc("", [], map[]), env);
            if error.Some? then Outcome(f, [], error) else Outcome(f, ts, None)
  {
    FragmentForest(children, [end] + ts, failure, FragmentAcc("", [], map[]), env);
    assert ([end] + ts)[0] == end && ([end] + ts)[1..] == ts;
  }

  /** Scanning the tokens of a forest in the body is scanning what follows with the forest's effect, or fails as it does. */
  lemma {:induction false} BodyForest(f: Forest, ts: seq<Token>, failure: Option<string>, acc: BodyAcc, env: Foreign)
    requires WellNested(f) && BodyContent(f)
    ensures BodyScan(Flatten(f) + ts, failure, acc, env) ==
            var (acc', error) := BodyEffect(f, acc, env);
            if error.Some? then Outcome(acc', [], error) else BodyScan(ts, failure, acc', env)
    decreases f, 1
  {
    match f {
      case Nil =>
        assert [] + ts == ts;
      case Leaf(t, next) =>
        FlattenLeaf(t, next, ts);
        if IsRemoved(t) {
          BodyForest(next, ts, failure, acc, env);
        } else {
          var (acc', error) := TagInBody(t, acc, env);
          if error.None? { BodyForest(next, ts, failure, acc', env); }
        }
      case Element(start, children, end, next) =>
        BodyElement(start, children, end, next, ts, failure, acc, env);
    }
  }

  lemma {:induction false} BodyElement(start: Token, children: Forest, end: Token, next: Forest, ts: seq<Token>,
                                       failure: Option<string>, acc: BodyAcc, env: Foreign)
    requires WellNested(Element(start, children, end, next)) && BodyContent(Element(start, children, end, next))
    ensures BodyScan(Flatten(Element(start, children, end, next)) + ts, failure, acc, env) ==
            var (acc', error) := BodyEffect(Element(start, children, end, next), acc, env);
            if error.Some? then Outcome(acc', [], error) else BodyScan(ts, failure, acc', env)
    decreases Element(start, children, end, next), 0
  {
    FlattenElement(start, children, end, next, ts);
    var behind := [end] + (Flatten(next) + ts);
    assert behind[0] == end && behind[1..] == Flatten(next) + ts;
    if IsRemoved(start) {
      SkipStopsAtEnd(start, children, end, Flatten(next) + ts);
      BodyForest(next, ts, failure, acc, env);
    } else if StartsFragment(start) {
      FragmentElement(start, children, end, Flatten(next) + ts, failure, env);
      var (acc', error) := AddedFragment(start, children, acc, env);
      if error.None? { BodyForest(next, ts, failure, acc', env); }
    } else {
      var (acc1, error1) := TagInBody(start, acc, env);
      if error1.None? {
        BodyForest(children, behind, failure, acc1, env);
        var (acc2, error2) := BodyEffect(children, acc1, env);
        if error2.None? { BodyForest(next, ts, failure, acc2.(out := acc2.out + end.raw), env); }
      }
    }
  }

  /** Parsing a well-nested body gives its effect and stops behind the end tag of the body, or fails with the first error in
      document order. */
  lemma BodyParsed(f: Forest, end: Token, ts: seq<Token>, failure: Option<string>, page: PageParts, env: Foreign)
    requires WellNested(f) && BodyContent(f) && IsEnd(end, "body")
    ensures BodyScan(Flatten(f) + ([end] + ts), failure, BodyAcc(page, "", []), env) ==
            var (acc, error) := BodyEffect(f, BodyAcc(page, "", []), env);
            Outcome(acc, if error.Some? then [] else ts, error)
  {
    BodyForest(f, [end] + ts, failure, BodyAcc(page, "", []), env);
    var (acc, error) := BodyEffect(f, BodyAcc(page, "", []), env);
    assert ([end] + ts)[0] == end && ([end] + ts)[1..] == ts;
    assert BodyScan([end] + ts, failure, acc, env) == Outcome(acc, ts, None);
  }

  // ------------------------------------------------------------------------------- what a page depends on

  function DependencyOf(t: Token): set<string> {
    if IsNamed(t, UIC_INCLUDE) && GetInclude(t.attrs).Emitted? then {GetInclude(t.attrs).dependency} else {}
  }

  /** The base names of the includes inside a fragment. */
  function FragmentIncludes(f: Forest): set<string> {
    match f
    case Nil => {}
    case Leaf(t, next) => DependencyOf(t) + FragmentIncludes(next)
    case Element(start, children, _, next) =>
      (if IsRemoved(start) && !IsNamed(start, UIC_INCLUDE) then {} else DependencyOf(start) + FragmentIncludes(children))
      + FragmentIncludes(next)
  }

  /** The base names of all includes of a body, in fragments or outside. */
  function BodyIncludes(f: Forest): set<string> {
    match f
    case Nil => {}
    case Leaf(t, next) => (if IsRemoved(t) then {} else DependencyOf(t)) + BodyIncludes(next)
    case Element(start, children, _, next) =>
      (if IsRemoved(start) then {}
       else if StartsFragment(start) then FragmentIncludes(children)
       else DependencyOf(start) + BodyIncludes(children))
      + BodyIncludes(next)
  }

  /** The names of the fragments of a body. */
  function FragmentNames(f: Forest): set<string> {
    match f
    case Nil => {}
    case Leaf(_, next) => FragmentNames(next)
    case Element(start, children, _, next) =>
      (if IsRemoved(start) then {}
       else if IsNamed(start, UIC_FRAGMENT) then {GetFragmentName(start.attrs)}
       else if IsNamed(start, UIC_TAIL) then {}
       else FragmentNames(children))
      + FragmentNames(next)
  }

  lemma {:induction false} FragmentDependencies(f: Forest, acc: FragmentAcc, env: Foreign)
    requires FragmentEffect(f, acc, env).1.None?
    ensures FragmentEffect(f, acc, env).0.dependencies.Keys == acc.dependencies.Keys + FragmentIncludes(f)
  {
    match f {
      case Nil =>
      case Leaf(t, next) =>
        FragmentDependencies(next, FragmentToken(t, acc, env).0, env);
      case Element(start, children, end, next) =>
        if IsRemoved(start) && !IsNamed(start, UIC_INCLUDE) {
          FragmentDependencies(next, acc, env);
        } else {
          var acc1 := FragmentToken(start, acc, env).0;
          var acc2 := FragmentEffect(children, acc1, env).0;
          FragmentDependencies(children, acc1, env);
          FragmentDependencies(next, acc2.(out := acc2.out + end.raw), env);
        }
    }
  }

  lemma TagKeys(t: Token, acc: BodyAcc, env: Foreign)
    requires TagInBody(t, acc, env).1.None?
    ensures TagInBody(t, acc, env).0.page.dependencies.Keys == acc.page.dependencies.Keys + DependencyOf(t)
    ensures TagInBody(t, acc, env).0.page.body == acc.page.body
  {
  }

  lemma FragmentKeys(start: Token, children: Forest, acc: BodyAcc, env: Foreign)
    requires StartsFragment(start) && AddedFragment(start, children, acc, env).1.None?
    ensures AddedFragment(start, children, acc, env).0.page.dependencies.Keys == acc.page.dependencies.Keys + FragmentIncludes(children)
    ensures AddedFragment(start, children, acc, env).0.page.body.Keys
         == acc.page.body.Keys + if IsNamed(start, UIC_FRAGMENT) then {GetFragmentName(start.attrs)} else {}
  {
    FragmentDependencies(children, FragmentAcc("", [], map[]), env);
  }

  /** After a body without error the page depends on the base name of every include in it and on nothing else, besides what
      it depended on before. */
  lemma {:induction false} BodyDependencies(f: Forest, acc: BodyAcc, env: Foreign)
    requires BodyContent(f) && BodyEffect(f, acc, env).1.None?
    ensures BodyEffect(f, acc, env).0.page.dependencies.Keys == acc.page.dependencies.Keys + BodyIncludes(f)
  {
    match f {
      case Nil =>
      case Leaf(t, next) =>
        if IsRemoved(t) {
          BodyDependencies(next, acc, env);
        } else {
          TagKeys(t, acc, env);
          BodyDependencies(next, TagInBody(t, acc, env).0, env);
        }
      case Element(start, children, end, next) =>
        if IsRemoved(start) {
          BodyDependencies(next, acc, env);
        } else if StartsFragment(start) {
          FragmentKeys(start, children, acc, env);
          BodyDependencies(next, AddedFragment(start, children, acc, env).0, env);
        } else {
          var acc1 := TagInBody(start, acc, env).0;
          var acc2 := BodyEffect(children, acc1, env).0;
          TagKeys(start, acc, env);
          BodyDependencies(children, acc1, env);
          BodyDependencies(next, acc2.(out := acc2.out + end.raw), env);
        }
    }
  }

  /** And it has exactly the fragments that are named in it, besides those it had before. */
  lemma {:induction false} BodyFragments(f: Forest, acc: BodyAcc, env: Foreign)
    requires BodyContent(f) && BodyEffect(f, acc, env).1.None?
    ensures BodyEffect(f, acc, env).0.page.body.Keys == acc.page.body.Keys + FragmentNames(f)
  {
    match f {
      case Nil =>
      case Leaf(t, next) =>
        if IsRemoved(t) {
          BodyFragments(next, acc, env);
        } else {
          TagKeys(t, acc, env);
          BodyFragments(next, TagInBody(t, acc, env).0, env);
        }
      case Element(start, children, end, next) =>
        if IsRemoved(start) {
          BodyFragments(next, acc, env);
        } else if StartsFragment(start) {
          FragmentKeys(start, children, acc, env);
          BodyFragments(next, AddedFragment(start, children, acc, env).0, env);
        } else {
          var acc1 := TagInBody(start, acc, env).0;
          var acc2 := BodyEffect(children, acc1, env).0;
          TagKeys(start, acc, env);
          BodyFragments(children, acc1, env);
          BodyFragments(next, acc2.(out := acc2.out + end.raw), env);
        }
    }
  }

  // ------------------------------------------------------------------------------------- whole document

  /** Tokens among which no head and no body starts. */
  predicate Outside(tokens: seq<Token>) {
    forall t :: t in tokens && t.StartTag? ==> t.name != "head" && t.name != "body"
  }

  lemma {:induction false} OutsideSkipped(tokens: seq<Token>, ts: seq<Token>, failure: Option<string>, doc: Doc, env: Foreign)
    requires Outside(tokens)
    ensures DocScan(tokens + ts, failure, doc, env) == DocScan(ts, failure, doc, env)
  {
    if tokens == [] {
      assert [] + ts == ts;
    } else {
      assert (tokens + ts)[0] == tokens[0] && (tokens + ts)[1..] == tokens[1..] + ts;
      OutsideSkipped(tokens[1..], ts, failure, doc, env);
    }
  }

  lemma HeadOfDocument(start: Token, f: Forest, end: Token, ts: seq<Token>, failure: Option<string>, doc: Doc, env: Foreign)
    requires start.StartTag? && start.name == "head" && IsEnd(end, "head") && WellNested(f) && HeadContent(f)
    ensures var tokens, head := [start] + (Flatten(f) + ([end] + ts)), NonEmptyFragment(Raw(Flatten(PruneHead(f))), HeadSheets(f));
            if HeadError(f, env).Some? then DocScan(tokens, failure, doc, env).1 == HeadError(f, env)
            else DocScan(tokens, failure, doc, env) ==
                 DocScan(ts, failure, doc.(meta := HeadMeta(f, env, doc.meta), head := if head.Some? then head else doc.head), env)
  {
    var all := [start] + (Flatten(f) + ([end] + ts));
    assert all[0] == start && all[1..] == Flatten(f) + ([end] + ts);
    HeadPruned(f, end, ts, failure, doc.meta, env);
  }

  lemma BodyOfDocument(start: Token, f: Forest, end: Token, ts: seq<Token>, failure: Option<string>, doc: Doc, env: Foreign)
    requires start.StartTag? && start.name == "body" && IsEnd(end, "body") && WellNested(f) && BodyContent(f)
    ensures var (acc, error) := BodyEffect(f, BodyAcc(doc.parts, "", []), env);
            var tokens := [start] + (Flatten(f) + ([end] + ts));
            if error.Some?
            then DocScan(tokens, failure, doc, env) == (doc.(bodyAttributes := doc.bodyAttributes + start.attrs, parts := acc.page), error)
            else DocScan(tokens, failure, doc, env) ==
                 DocScan(ts, failure, doc.(bodyAttributes := doc.bodyAttributes + start.attrs, parts := WithDefaultFragment(acc)), env)
  {
    var all := [start] + (Flatten(f) + ([end] + ts));
    assert all[0] == start && all[1..] == Flatten(f) + ([end] + ts);
    BodyParsed(f, end, ts, failure, doc.parts, env);
  }

  const NO_PARTS := PageParts(map[], None, map[], map[])

  /** A document with one head and one body fails with the first error in document order. Otherwise the head is the pruned head, the
      parts are those of the body, the meta data those of the head, and nothing else of the document counts. */
  lemma DocumentParsed(before: seq<Token>, headStart: Token, head: Forest, headEnd: Token, between: seq<Token>,
                       bodyStart: Token, body: Forest, bodyEnd: Token, after: seq<Token>, env: Foreign)
    requires Outside(before) && Outside(between) && Outside(after)
    requires headStart.StartTag? && headStart.name == "head" && IsEnd(headEnd, "head") && WellNested(head) && HeadContent(head)
    requires bodyStart.StartTag? && bodyStart.name == "body" && IsEnd(bodyEnd, "body") && WellNested(body) && BodyContent(body)
    ensures var tokens := before + ([headStart] + (Flatten(head) + ([headEnd] +
                          (between + ([bodyStart] + (Flatten(body) + ([bodyEnd] + (after + []))))))));
            var (doc, error) := DocScan(tokens, None, Doc(None, map[], NO_PARTS, []), env);
            var (acc, bodyError) := BodyEffect(body, BodyAcc(NO_PARTS, "", []), env);
            && error == (if HeadError(head, env).Some? then HeadError(head, env) else bodyError)
            && (error.None? ==> doc == Doc(NonEmptyFragment(Raw(Flatten(PruneHead(head))), HeadSheets(head)), HeadMeta(head, env, map[]),
                                           WithDefaultFragment(acc), [] + bodyStart.attrs))
  {
    var doc := Doc(None, map[], NO_PARTS, []);
    var tail := [bodyStart] + (Flatten(body) + ([bodyEnd] + (after + [])));
    var h := NonEmptyFragment(Raw(Flatten(PruneHead(head))), HeadSheets(head));
    var doc' := doc.(meta := HeadMeta(head, env, doc.meta), head := if h.Some? then h else doc.head);
    OutsideSkipped(before, [headStart] + (Flatten(head) + ([headEnd] + (between + tail))), None, doc, env);
    HeadOfDocument(headStart, head, headEnd, between + tail, None, doc, env);
    OutsideSkipped(between, tail, None, doc', env);
    BodyOfDocument(bodyStart, body, bodyEnd, after + [], None, doc', env);
    var acc := BodyEffect(body, BodyAcc(doc.parts, "", []), env).0;
    OutsideSkipped(after, [], None, doc'.(bodyAttributes := [] + bodyStart.attrs, parts := WithDefaultFragment(acc)), env);
  }
}
