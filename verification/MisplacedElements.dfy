/** Elements where the parser does not expect them: fragments inside fragments, fragments and meta scripts that close themselves,
    a head inside the head; and end tags that are missing altogether. */
module MisplacedElements {
  import opened Wrappers
  import opened Html
  import opened Templating
  import opened Includes
  import opened HtmlContentParser
  import opened TreePruning

  /** No include in the content is refused. */
  predicate Accepted(f: Forest) {
    match f
    case Nil => true
    case Leaf(t, next) => (IsNamed(t, UIC_INCLUDE) ==> GetInclude(t.attrs).Emitted?) && Accepted(next)
    case Element(start, children, _, next) =>
      && Accepted(next)
      && (IsNamed(start, UIC_INCLUDE) ==> GetInclude(start.attrs).Emitted?)
      && (IsNamed(start, UIC_INCLUDE) || !IsRemoved(start) ==> Accepted(children))
  }

  /** Without an error, content is closed inside if and only if there is a fragment or a tail in it. */
  lemma {:induction false} ClosedInsideExactly(f: Forest, acc: FragmentAcc, env: Foreign)
    requires WellNested(f) && Accepted(f)
    ensures FragmentWalk(f, acc, env).ClosedIn? <==> !FragmentContent(f)
    ensures FragmentWalk(f, acc, env).Through? ==> FragmentWalk(f, acc, env).error == None
  {
    match f {
      case Nil =>
      case Leaf(t, next) => ClosedInsideExactly(next, FragmentToken(t, acc, env).0, env);
      case Element(start, children, end, next) =>
        if IsRemoved(start) && !IsNamed(start, UIC_INCLUDE) {
          ClosedInsideExactly(next, acc, env);
        } else {
          var acc1 := FragmentToken(start, acc, env).0;
          ClosedInsideExactly(children, acc1, env);
          var w := FragmentWalk(children, acc1, env);
          if w.Through? { ClosedInsideExactly(next, w.acc.(out := w.acc.out + end.raw), env); }
        }
    }
  }

  /** A fragment or tail in the body that is closed inside: what was gathered up to there is its content, and everything behind,
      its own end tag included, belongs to the body. */
  lemma ClosedInBody(start: Token, children: Forest, end: Token, ts: seq<Token>, failure: Option<string>, acc: BodyAcc, env: Foreign)
    requires StartsFragment(start) && !IsRemoved(start) && WellNested(children) && Accepted(children) && !FragmentContent(children)
    ensures var w := FragmentWalk(children, FragmentAcc("", [], map[]), env);
            && w.ClosedIn?
            && BodyScan([start] + (Flatten(children) + ([end] + ts)), failure, acc, env)
            == BodyScan(w.rest + ([end] + ts), failure, acc.(page := AddFragment(acc.page, start, w.acc)), env)
  {
    var inner := Flatten(children) + ([end] + ts);
    assert ([start] + inner)[0] == start && ([start] + inner)[1..] == inner;
    ClosedInsideExactly(children, FragmentAcc("", [], map[]), env);
    AnyFragment(children, [end] + ts, failure, FragmentAcc("", [], map[]), env);
  }

  /** A self-closing fragment is not closed by itself: it goes on behind itself. */
  lemma SelfClosingFragment(t: Token, next: Forest, ts: seq<Token>, failure: Option<string>, acc: BodyAcc, env: Foreign)
    requires t.SelfClosingTag? && StartsFragment(t) && !IsRemoved(t) && WellNested(next) && FragmentContent(next) && Accepted(next)
    requires ts != [] && ts[0].EndTag? && !(ts[0].name == UIC_FRAGMENT || ts[0].name == UIC_TAIL)
    ensures var inner := FragmentEffect(next, FragmentAcc("", [], map[]), env).0;
            var o := FragmentScan(ts[1..], failure, inner.(out := inner.out + ts[0].raw), env);
            BodyScan([t] + (Flatten(next) + ts), failure, acc, env) ==
            if o.error.Some? then Outcome(acc, [], o.error) else BodyScan(o.rest, failure, acc.(page := AddFragment(acc.page, t, o.acc)), env)
  {
    var inner := Flatten(next) + ts;
    assert ([t] + inner)[0] == t && ([t] + inner)[1..] == inner;
    ClosedInsideExactly(next, FragmentAcc("", [], map[]), env);
    WalkOfContent(next, FragmentAcc("", [], map[]), env);
    AnyFragment(next, ts, failure, FragmentAcc("", [], map[]), env);
    assert ts == [ts[0]] + ts[1..];
    BehindEndTag(ts[0], ts[1..], failure, FragmentEffect(next, FragmentAcc("", [], map[]), env).0, env);
  }

  /** What comes of a meta script without end tag of its own, in front of this forest. */
  function MetaErrorInFront(next: Forest, env: Foreign): ParseError {
    if !next.Leaf? || !next.token.TextToken? then MetaTextExpected
    else if env.decode(next.token.raw).None? then MetaJsonInvalid
    else MetaNotClosed
  }

  /** A meta script that closes itself is an error, unless an enclosing script ends right behind its text. */
  lemma SelfClosingMetaScript(t: Token, next: Forest, ts: seq<Token>, failure: Option<string>, acc: HeadAcc, env: Foreign)
    requires t.SelfClosingTag? && IsMetaScript(t) && !IsRemoved(t) && WellNested(next)
    requires ts != [] && ts[0].EndTag? && ts[0].name != "script"
    ensures HeadScan([t] + (Flatten(next) + ts), failure, acc, env).error == Some(MetaErrorInFront(next, env))
  {
    var inner := Flatten(next) + ts;
    assert ([t] + inner)[0] == t && ([t] + inner)[1..] == inner;
    MetaScanFails(next, ts, acc.meta, env);
  }

  lemma MetaScanFails(next: Forest, ts: seq<Token>, meta: map<string, Value>, env: Foreign)
    requires WellNested(next) && ts != [] && ts[0].EndTag? && ts[0].name != "script"
    ensures MetaScan(Flatten(next) + ts, meta, env).error == Some(MetaErrorInFront(next, env))
  {
    match next {
      case Nil =>
        assert Flatten(next) + ts == ts;
      case Leaf(text, more) =>
        FlattenLeaf(text, more, ts);
        FirstToken(more, ts);
      case Element(start, children, end, more) =>
        FlattenElement(start, children, end, more, ts);
    }
  }

  lemma FirstToken(f: Forest, ts: seq<Token>)
    requires WellNested(f) && ts != []
    ensures Flatten(f) + ts != []
    ensures f != Nil ==> !(Flatten(f) + ts)[0].EndTag?
    ensures f == Nil ==> (Flatten(f) + ts)[0] == ts[0]
  {
    match f {
      case Nil =>
      case Leaf(t, next) => FlattenLeaf(t, next, ts);
      case Element(start, children, end, next) => FlattenElement(start, children, end, next, ts);
    }
  }

  /** The end tag of a head inside the head closes the head: what is behind it is not read as part of the head. */
  lemma HeadInHead(start: Token, children: Forest, end: Token, ts: seq<Token>, failure: Option<string>, acc: HeadAcc, env: Foreign)
    requires IsNamed(start, "head") && !IsRemoved(start) && IsEnd(end, "head") && WellNested(children) && HeadContent(children)
    ensures var (acc', error) := HeadRun(children, acc.(out := acc.out + start.raw), env);
            HeadScan([start] + (Flatten(children) + ([end] + ts)), failure, acc, env)
            == if error.Some? then Outcome(acc', [], error) else Outcome(acc', ts, None)
  {
    var inner := Flatten(children) + ([end] + ts);
    assert ([start] + inner)[0] == start && ([start] + inner)[1..] == inner;
    assert ([end] + ts)[0] == end && ([end] + ts)[1..] == ts;
    HeadForest(children, [end] + ts, failure, acc.(out := acc.out + start.raw), env);
  }

  // ------------------------------------------------------------------------------------ missing end tags

  /** How reading ends at the end of the tokens: the tokenizer has failed, or there is nothing more to read. */
  function Broken(failure: Option<string>): Option<ParseError> {
    match failure case None => None case Some(message) => Some(TokenizerFailed(message))
  }

  /** A head without end tag ends with the document, and is an error if the tokenizer has failed. */
  lemma HeadBreaksOff(f: Forest, failure: Option<string>, acc: HeadAcc, env: Foreign)
    requires WellNested(f) && HeadContent(f)
    ensures var (acc', error) := HeadRun(f, acc, env);
            HeadScan(Flatten(f), failure, acc, env) == Outcome(acc', [], if error.Some? then error else Broken(failure))
  {
    HeadForest(f, [], failure, acc, env);
    assert Flatten(f) + [] == Flatten(f);
  }

  lemma FragmentBreaksOff(f: Forest, failure: Option<string>, acc: FragmentAcc, env: Foreign)
    requires WellNested(f) && FragmentContent(f)
    ensures var (acc', error) := FragmentEffect(f, acc, env);
            FragmentScan(Flatten(f), failure, acc, env) == Outcome(acc', [], if error.Some? then error else Broken(failure))
  {
    FragmentForest(f, [], failure, acc, env);
    assert Flatten(f) + [] == Flatten(f);
  }

  lemma BodyBreaksOff(f: Forest, failure: Option<string>, acc: BodyAcc, env: Foreign)
    requires WellNested(f) && BodyContent(f)
    ensures var (acc', error) := BodyEffect(f, acc, env);
            BodyScan(Flatten(f), failure, acc, env) == Outcome(acc', [], if error.Some? then error else Broken(failure))
  {
    BodyForest(f, [], failure, acc, env);
    assert Flatten(f) + [] == Flatten(f);
  }

  /** A document that stops in its body. */
  lemma DocumentBreaksOff(before: seq<Token>, start: Token, f: Forest, failure: Option<string>, doc: Doc, env: Foreign)
    requires Outside(before) && start.StartTag? && start.name == "body" && WellNested(f) && BodyContent(f)
    ensures var (acc, error) := BodyEffect(f, BodyAcc(doc.parts, "", []), env);
            var all := doc.(bodyAttributes := doc.bodyAttributes + start.attrs);
            DocScan(before + ([start] + Flatten(f)), failure, doc, env) ==
            if error.Some? then (all.(parts := acc.page), error)
            else if failure.Some? then (all.(parts := acc.page), Broken(failure))
            else (all.(parts := WithDefaultFragment(acc)), None)
  {
    var tokens := [start] + Flatten(f);
    assert tokens[0] == start && tokens[1..] == Flatten(f);
    OutsideSkipped(before, tokens, failure, doc, env);
    BodyBreaksOff(f, failure, BodyAcc(doc.parts, "", []), env);
  }

  /** A document without head and body leaves the page as it is. */
  lemma NothingBreaksOff(tokens: seq<Token>, failure: Option<string>, doc: Doc, env: Foreign)
    requires Outside(tokens)
    ensures DocScan(tokens, failure, doc, env) == (doc, Broken(failure))
  {
    OutsideSkipped(tokens, [], failure, doc, env);
    assert tokens + [] == tokens;
  }
}
