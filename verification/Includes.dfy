/** The uic-include tag: the text the parser emits for it, and what the template engine makes of that text. */
module Includes {
  import opened Wrappers
  import opened Strings
  import opened Html
  import opened Templating
  import opened TemplatingSyntax

  type Params = map<string, string>

  const PARAM_ATTR_PREFIX := "param-"

  datatype IncludeError = WithoutSrc | BadBool(text: string)

  /** The markers to emit, and the dependency they create. */
  datatype Emitted = Emitted(startMarker: string, endMarker: string, dependency: string, params: Params) | Refused(error: IncludeError)

  /** strconv.ParseBool */
  function ParseBool(t: string): Option<bool> {
    if t in {"1", "t", "T", "true", "TRUE", "True"} then Some(true)
    else if t in {"0", "f", "F", "false", "FALSE", "False"} then Some(false)
    else None
  }

  /** The source of an include: trimmed, without one leading separator. */
  function SourceOf(val: string): string {
    var src := TrimSpace(val);
    if HasPrefix(src, "#") then src[1..] else src
  }

  function ParamsOf(attrs: seq<Attribute>): Params {
    if attrs == [] then map[]
    else
      var n := |attrs| - 1;
      var before := ParamsOf(attrs[..n]);
      if HasPrefix(attrs[n].key, PARAM_ATTR_PREFIX) then before[attrs[n].key[|PARAM_ATTR_PREFIX|..] := attrs[n].val] else before
  }

  function StartMarker(src: string, required: bool): string {
    PLACEHOLDER_START + (if required then START_INCLUDE else START_INCLUDE_BLOCK) + (" " + src) + PLACEHOLDER_END
  }

  function EndMarker(src: string, required: bool): string {
    if required then "" else PLACEHOLDER_START + END_INCLUDE_BLOCK + src + PLACEHOLDER_END
  }

  function GetInclude(attrs: seq<Attribute>): Emitted {
    match GetAttr(attrs, "src")
    case None => Refused(WithoutSrc)
    case Some(url) =>
      var src := SourceOf(url.val);
      var emit := (required: bool) => Emitted(StartMarker(src, required), EndMarker(src, required), Split(src, '#')[0], ParamsOf(attrs));
      match GetAttr(attrs, "required")
      case None => emit(false)
      case Some(r) =>
        match ParseBool(r.val)
        case None => Refused(BadBool(r.val))
        case Some(required) => emit(required)
  }

  // ------------------------------------------------------------------------------------------ round trip

  function IncludeText(src: string, required: bool): string {
    StartMarker(src, required) + EndMarker(src, required)
  }

  function IncludeNode(src: string, required: bool): Node {
    if required then Placeholder("> " + src) else Block(" " + src, "")
  }

  /** Sources the template language can spell: no surrounding white space and no end marker inside. */
  predicate Expressible(src: string) {
    Trimmed(src) && Closed(src)
  }

  lemma TrimLeadingBlank(src: string)
    requires Trimmed(src)
    ensures TrimSpace(" " + src) == src
  {
    assert " " + src + "" == " " + src;
    TrimSpacePadded(" ", src, "");
  }

  lemma ClosedBehind(front: string, src: string)
    requires front == " " || front == "> "
    ensures Closed(front + src) <==> Closed(src)
  {
    var t := front + src;
    var i, j := Index(src, PLACEHOLDER_END), Index(t, PLACEHOLDER_END);
    IndexIsFirst(src, PLACEHOLDER_END);
    IndexIsFirst(t, PLACEHOLDER_END);
    AtEnd(src, i);
    AtEnd(t, i + |front|);
    AtEnd(t, j);
    AtEnd(src, j - |front|);
  }

  /** The include node calls the source, and is written as the parser emits it. */
  lemma IncludeNodeCalls(src: string, required: bool)
    requires Expressible(src)
    ensures CallsOf(IncludeNode(src, required)) == {src}
    ensures required ==> Classify("> " + src) == Include(src)
    ensures !required ==> TrimSpace(" " + src) == src
    ensures PrintNode(IncludeNode(src, required)) == IncludeText(src, required)
    ensures WellFormedNode(IncludeNode(src, required))
  {
    TrimLeadingBlank(src);
    IncludePrinted(src, required);
    if required {
      ClosedBehind("> ", src);
      TrimRequired(src);
    } else {
      ClosedBehind(" ", src);
      ClosingAtOnce(" " + src);
    }
  }

  lemma IncludePrinted(src: string, required: bool)
    requires Trimmed(src)
    ensures PrintNode(IncludeNode(src, required)) == IncludeText(src, required)
  {
    TrimLeadingBlank(src);
    if required {
      Regroup(PLACEHOLDER_START, START_INCLUDE, " " + src);
      Regroup(START_INCLUDE, " ", src);
      assert "> " == START_INCLUDE + " ";
      assert StartMarker(src, true) + "" == StartMarker(src, true);
    } else {
      assert Opening(" " + src) + "" == StartMarker(src, false);
    }
  }

  lemma ClosingAtOnce(body: string)
    ensures Index("\U{A7}" + "" + Closing(body), Closing(body)) == 1
  {
    var c, t := Closing(body), "\U{A7}" + "" + Closing(body);
    assert t[1..1 + |c|] == c;
    AtStart(t, 0);
    NoClosingWithoutStart(t, body, 0);
    assert t[0] == '\U{A7}' && t[1] == '\U{A7}';
    IndexIs(t, c, 1);
  }

  lemma TrimRequired(src: string)
    requires Trimmed(src)
    ensures Classify("> " + src) == Include(src)
  {
    var body := "> " + src;
    if src == "" {
      assert body == "" + ">" + " ";
      TrimSpacePadded("", ">", " ");
      assert TrimSpace(body)[1..] == "";
    } else {
      assert body == "" + body + "";
      TrimSpacePadded("", body, "");
      assert TrimSpace(body)[1..] == " " + src;
      TrimLeadingBlank(src);
    }
  }

  // ------------------------------------------------------------------------------- inside a longer text

  /** Nothing is left open at the end of the text, and no text in it ends in half a marker. */
  predicate Open(t: Template) {
    match t
    case End(ending) => ending == Complete
    case Then(node, next) => (node.Literal? ==> Separated(node.text)) && Open(next)
  }

  /** The nodes of one tree in front of another tree. */
  function Append(t: Template, rest: Template): Template {
    match t
    case End(_) => rest
    case Then(node, next) => Then(node, Append(next, rest))
  }

  lemma {:induction false} ParseAppend(t: Template, u: string)
    requires WellFormed(t) && Open(t) && HasPrefix(u, PLACEHOLDER_START) && Contains(u, PLACEHOLDER_END)
    ensures Parse(Print(t) + u) == Append(t, Parse(u))
  {
    match t {
      case End(_) =>
        assert "" + u == u;
      case Then(node, next) =>
        ParseAppend(next, u);
        Regroup(PrintNode(node), Print(next), u);
        if node.Literal? {
          BeginsWithMarker(next, u);
          ParseLiteral(node.text, Print(next) + u);
        } else {
          ParsePrintedNode(node, Print(next) + u);
        }
    }
  }

  lemma BeginsWithMarker(t: Template, u: string)
    requires WellFormed(t) && HasPrefix(u, PLACEHOLDER_START) && Contains(u, PLACEHOLDER_END)
    requires t == End(Complete) || (t.Then? && !t.node.Literal?)
    ensures HasPrefix(Print(t) + u, PLACEHOLDER_START) && Contains(Print(t) + u, PLACEHOLDER_END)
  {
    match t {
      case End(_) =>
        assert "" + u == u;
      case Then(node, next) =>
        Regroup(PrintNode(node), Print(next), u);
        PrintedMarkers(node, Print(next) + u);
    }
  }

  lemma SameTail(a: string, b: string, c: string)
    requires a + b == a + c
    ensures b == c
  {
    assert b == (a + b)[|a|..] && c == (a + c)[|a|..];
  }

  /** Only in an open text can a node be added at the end. */
  lemma {:induction false} AppendedIsOpen(t: Template, node: Node, rest: Template)
    requires WellFormed(t) && WellFormed(Append(t, Then(node, rest))) && !node.Literal?
    requires Print(Append(t, Then(node, rest))) == Print(t) + (PrintNode(node) + Print(rest))
    ensures Open(t)
  {
    match t {
      case End(_) =>
        assert |Print(t)| == 0;
      case Then(n, next) =>
        Regroup(PrintNode(n), Print(next), PrintNode(node) + Print(rest));
        SameTail(PrintNode(n), Print(Append(next, Then(node, rest))), Print(next) + (PrintNode(node) + Print(rest)));
        AppendedIsOpen(next, node, rest);
    }
  }

  /** Anywhere in a text, an include is read back in its place, as one node that calls exactly its source, if and only if the
      text before it is open and the source is expressible. */
  lemma ReadBackExactly(before: string, src: string, required: bool, after: string)
    ensures Open(Parse(before)) && Expressible(src) <==>
            && Parse(before + (IncludeText(src, required) + after)) == Append(Parse(before), Then(IncludeNode(src, required), Parse(after)))
            && CallsOf(IncludeNode(src, required)) == {src}
  {
    var node, t := IncludeNode(src, required), Parse(before);
    PrintParse(before);
    PrintParse(after);
    if Open(t) && Expressible(src) {
      IncludeNodeCalls(src, required);
      ParsePrintedNode(node, after);
      PrintedMarkers(node, after);
      ParseAppend(t, IncludeText(src, required) + after);
    } else if Parse(before + (IncludeText(src, required) + after)) == Append(t, Then(node, Parse(after))) && CallsOf(node) == {src} {
      PrintParse(before + (IncludeText(src, required) + after));
      AppendedWellFormed(t, Then(node, Parse(after)));
      assert src in CallsOf(node);
      CalledIsExpressible(node, src);
      IncludeNodeCalls(src, required);
      AppendedIsOpen(t, node, Parse(after));
    }
  }

  lemma {:induction false} AppendedWellFormed(t: Template, rest: Template)
    requires WellFormed(Append(t, rest))
    ensures WellFormed(rest)
  {
    if t.Then? { AppendedWellFormed(t.next, rest); }
  }

  /** Executing an open tree and then more: the rest is executed in the state that the front leaves, if the front succeeds. */
  lemma {:induction false} DenoteAppend<S(!new)>(text: string, t: Template, rest: Template, env: Env, write: (S, string) -> S,
                                                 nested: (string, S) --> (S, Reply), s: S)
    requires Open(t) && Callable(Calls(Append(t, rest)), nested)
    ensures Callable(Calls(t), nested) && Callable(Calls(rest), nested)
    ensures Denote(text, Append(t, rest), env, write, nested, s) ==
            var (s', reply) := Denote(text, t, env, write, nested, s);
            if reply.Ok? then Denote(text, rest, env, write, nested, s') else (s', reply)
    decreases t
  {
    match t {
      case End(_) =>
      case Then(node, next) =>
        assert Calls(Append(t, rest)) == CallsOf(node) + Calls(Append(next, rest)) && Calls(t) == CallsOf(node) + Calls(next);
        DenoteThen(text, node, Append(next, rest), env, write, nested, s);
        var (s', _) := DenoteNode(node, env, write, nested, s);
        DenoteAppend(text, next, rest, env, write, nested, s');
        DenoteThen(text, node, next, env, write, nested, s);
    }
  }

  /** Executing that node calls the nested executor once, with exactly the source. A failure is passed on if the include is
      required; otherwise it adds nothing, and execution goes on. */
  lemma IncludeExecuted<S(!new)>(src: string, required: bool, env: Env, write: (S, string) -> S,
                                 nested: (string, S) --> (S, Reply), s: S)
    requires Expressible(src) && Callable({src}, nested) && forall x :: write(x, "") == x
    ensures CallsOf(IncludeNode(src, required)) == {src}
    ensures var (s', reply) := nested(src, s);
            DenoteNode(IncludeNode(src, required), env, write, nested, s) ==
            (s', if reply.Failed? && !required then Ok else reply)
  {
    IncludeNodeCalls(src, required);
    if required {
      assert DenoteNode(IncludeNode(src, true), env, write, nested, s) == nested(src, s);
    } else {
      var node := Block(" " + src, "");
      assert IncludeNode(src, false) == node && TrimSpace(node.body) == src;
      var (s', reply) := nested(src, s);
      assert write(s', node.alt) == s';
      assert nested(TrimSpace(node.body), s) == (s', reply);
    }
  }

  /** Executing a text with an include in it: what comes before, one call with exactly the source, and what comes after. */
  lemma IncludeServed<S(!new)>(before: string, src: string, required: bool, after: string, env: Env, write: (S, string) -> S,
                               nested: (string, S) -> (S, Reply), s: S)
    requires Open(Parse(before)) && Expressible(src) && forall x :: write(x, "") == x
    ensures var text := before + (IncludeText(src, required) + after);
            var (s1, first) := Denote(text, Parse(before), env, write, nested, s);
            var (s2, called) := nested(src, s1);
            Denote(text, Parse(text), env, write, nested, s) ==
            if !first.Ok? then (s1, first)
            else if called.Ok? || (called.Failed? && !required) then Denote(text, Parse(after), env, write, nested, s2)
            else (s2, called)
  {
    var text := before + (IncludeText(src, required) + after);
    var node := IncludeNode(src, required);
    ReadBackExactly(before, src, required, after);
    DenoteAppend(text, Parse(before), Then(node, Parse(after)), env, write, nested, s);
    var (s1, _) := Denote(text, Parse(before), env, write, nested, s);
    IncludeExecuted(src, required, env, write, nested, s1);
    DenoteThen(text, node, Parse(after), env, write, nested, s1);
  }

  /** Right behind a closing bracket the emitted text shares that bracket with an end marker, and the whole fragment is in
      error. */
  lemma IncludeBehindBracket(before: string, src: string, required: bool, after: string)
    requires HasSuffix(before, "]") && !Contains(before, PLACEHOLDER_START)
    ensures Parse(before + (IncludeText(src, required) + after))
         == End(MissingSeparator(before + (IncludeText(src, required) + after)))
  {
    var u := IncludeText(src, required) + after;
    var t, i := before + u, |before| - 1;
    assert before[i..][0] == ']' && u[0] == '\U{A7}' && u[1] == '[';
    AtEnd(t, i);
    IndexIsFirst(t, PLACEHOLDER_END);
    IndexIsFirst(t, PLACEHOLDER_START);
    IndexIsFirst(before, PLACEHOLDER_START);
    AtStart(t, |before|);
    forall j ensures At(t, PLACEHOLDER_START, j) ==> j >= |before| {
      AtStart(t, j);
      AtStart(before, j);
    }
  }

  /** Names are called without the white space around them. */
  lemma CalledIsTrimmed(node: Node, name: string)
    requires name in CallsOf(node)
    ensures Trimmed(name)
  {
    var body := node.body;
    var left, right := TrimSpaceParts(body);
    if node.Placeholder? {
      var left', right' := TrimSpaceParts(TrimSpace(body)[1..]);
    }
  }

  /** A well-formed node only ever calls what can be written in it. */
  lemma CalledIsExpressible(node: Node, name: string)
    requires WellFormedNode(node) && name in CallsOf(node)
    ensures Expressible(name)
  {
    var body := node.body;
    CalledIsTrimmed(node, name);
    NameIsClosed(body);
    if node.Placeholder? {
      var source := TrimSpace(body)[1..];
      assert name == TrimSpace(source);
      ClosedTail(TrimSpace(body));
      NameIsClosed(source);
    }
  }

  lemma ClosedTail(t: string)
    requires Closed(t) && t != ""
    ensures Closed(t[1..])
  {
    var j := Index(t[1..], PLACEHOLDER_END);
    IndexIsFirst(t, PLACEHOLDER_END);
    IndexIsFirst(t[1..], PLACEHOLDER_END);
    AtEnd(t[1..], j);
    AtEnd(t, 1 + j);
  }
}
