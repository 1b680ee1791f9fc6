/** The placeholder language of fragments: its syntax as trees, the text of a tree, the tree of a text,
    what executing a tree does, and the scanning loop that executes a text directly. */
module Templating {
  import opened Wrappers
  import opened Strings

  const PLACEHOLDER_START := "\U{A7}["
  const PLACEHOLDER_END := "]\U{A7}"
  const START_INCLUDE := ">"
  const START_INCLUDE_BLOCK := "#>"
  const END_INCLUDE_BLOCK := "/"

  // ---------------------------------------------------------------------------------------- data

  /** A value of the meta data map. Query stands for url.Values, Other for every further Go type. */
  datatype Value = Text(text: string) | Tree(entries: map<string, Value>) | Query(params: map<string, seq<string>>) | Other(id: int)

  /** One step of a dotted path. */
  function Child(v: Value, part: string): Option<Value> {
    match v
    case Tree(entries) => if part in entries then Some(entries[part]) else None
    case Query(params) => Some(Value.Text(if part in params && params[part] != [] then params[part][0] else ""))
    case _ => None
  }

  function Walk(v: Value, parts: seq<string>): Option<Value>
    decreases |parts|
  {
    if parts == [] then Some(v)
    else match Child(v, parts[0])
         case None => None
         case Some(child) => Walk(child, parts[1..])
  }

  /** The value a key denotes: the full key at top level first, a dotted path second. */
  function Lookup(data: Option<map<string, Value>>, key: string): Option<Value> {
    match data
    case None => None
    case Some(entries) => if key in entries then Some(entries[key]) else Walk(Tree(entries), Split(key, '.'))
  }

  method GetDataFromMap(data: Option<map<string, Value>>, key: string) returns (result: Option<Value>)
    ensures result == Lookup(data, key)
  {
    if data.None? {
      return None;
    }
    if key in data.value {
      return Some(data.value[key]);
    }
    var current := Tree(data.value);
    var parts := Split(key, '.');
    var i := 0;
    while i < |parts|
      invariant 0 <= i <= |parts|
      invariant Walk(Tree(data.value), parts) == Walk(current, parts[i..])
    {
      assert parts[i..][1..] == parts[i + 1..];
      match current {
        case Tree(entries) =>
          if parts[i] !in entries {
            return None;
          }
          current := entries[parts[i]];
        case Query(params) =>
          current := Value.Text(if parts[i] in params && params[parts[i]] != [] then params[parts[i]][0] else "");
        case _ =>
          return None;
      }
      i := i + 1;
    }
    return Some(current);
  }

  /** A dotted key that is no key itself denotes what is found by following its parts. */
  lemma LookupDotted(entries: map<string, Value>, parts: seq<string>)
    requires parts != [] && (forall p :: p in parts ==> '.' !in p) && Join(parts, '.') !in entries
    ensures Lookup(Some(entries), Join(parts, '.')) == Walk(Tree(entries), parts)
  {
    SplitJoin(parts, '.');
  }

  // -------------------------------------------------------------------------------------- syntax

  /** Body is the raw text between the markers, so that a node has exactly one spelling. */
  datatype Node =
    | Literal(text: string)
    | Placeholder(body: string)         // start body end
    | Block(body: string, alt: string)  // start #> body end alt start / name end
    | Fused(body: string)               // a block whose opening and closing markers share one section sign

  /** How a text stops: at its end, at a placeholder without end, or at a block without end. */
  datatype Ending = Complete | MissingSeparator(rest: string) | MissingBlockEnd(body: string, rest: string)

  datatype Template = End(ending: Ending) | Then(node: Node, next: Template)

  /** The text closing the block with this body. */
  function Closing(body: string): string {
    PLACEHOLDER_START + END_INCLUDE_BLOCK + TrimSpace(body) + PLACEHOLDER_END
  }

  function Opening(body: string): string {
    PLACEHOLDER_START + START_INCLUDE_BLOCK + body + PLACEHOLDER_END
  }

  function PrintNode(node: Node): string {
    match node
    case Literal(text) => text
    case Placeholder(body) => PLACEHOLDER_START + body + PLACEHOLDER_END
    case Block(body, alt) => Opening(body) + alt + Closing(body)
    case Fused(body) => Opening(body) + Closing(body)[1..]
  }

  function Print(template: Template): string {
    match template
    case End(Complete) => ""
    case End(MissingSeparator(rest)) => rest
    case End(MissingBlockEnd(body, rest)) => Opening(body) + rest
    case Then(node, next) => PrintNode(node) + Print(next)
  }

  /** No end marker inside: a placeholder ends at the first one. */
  predicate Closed(body: string) {
    !Contains(body, PLACEHOLDER_END)
  }

  /** Whether a text may stand right in front of a placeholder. */
  predicate Separated(text: string) {
    && !Contains(text, PLACEHOLDER_START)
    && !Contains(text, PLACEHOLDER_END)
    && !HasSuffix(text, "]")
  }

  predicate WellFormedNode(node: Node) {
    match node
    case Literal(text) => text != "" && !Contains(text, PLACEHOLDER_START)
    case Placeholder(body) => Closed(body) && !HasPrefix(body, START_INCLUDE_BLOCK)
    // the closing marker of the block is the first one, even counting one that shares the opening's section sign
    case Block(body, alt) => Closed(body) && Index("\U{A7}" + alt + Closing(body), Closing(body)) == 1 + |alt|
    case Fused(body) => Closed(body)
  }

  predicate WellFormedEnding(ending: Ending) {
    match ending
    case Complete => true
    case MissingSeparator(rest) =>
      Contains(rest, PLACEHOLDER_START) && Index(rest, PLACEHOLDER_END) < Index(rest, PLACEHOLDER_START)
    case MissingBlockEnd(body, rest) => Closed(body) && !Contains("\U{A7}" + rest, Closing(body))
  }

  predicate WellFormed(template: Template) {
    match template
    case End(ending) => WellFormedEnding(ending)
    case Then(node, next) =>
      && WellFormedNode(node)
      && WellFormed(next)
      && (node.Literal? ==>
            match next
            case End(Complete) => true
            case End(MissingSeparator(_)) => false
            case End(MissingBlockEnd(_, _)) => Separated(node.text)
            case Then(following, _) => !following.Literal? && Separated(node.text))
  }

  /** What the scanner finds at a placeholder: a complete node and the text behind it, or no end. */
  datatype Scan = Broken(ending: Ending) | Found(node: Node, rest: string)

  /** A block with its closing marker at pos. */
  function ScanBlockBody(t: string, end: nat, body: string, pos: int): (scan: Scan)
    requires end + 2 <= |t| && (pos == -1 || 0 <= pos <= |t| - |Closing(body)|)
    ensures scan.Found? ==> |scan.rest| < |t|
  {
    if pos < end then Broken(MissingBlockEnd(body, t[end + 2..]))
    else Found(if pos < end + 2 then Fused(body) else Block(body, t[end + 2..pos]), t[pos + |Closing(body)|..])
  }

  function ScanPlaceholder(t: string, start: nat, end: nat): (scan: Scan)
    requires start + 2 <= end && end + 2 <= |t|
    ensures scan.Found? ==> |scan.rest| < |t|
  {
    var placeholder := t[start + 2..end];
    if HasPrefix(placeholder, START_INCLUDE_BLOCK) then
      var body := placeholder[2..];
      ScanBlockBody(t, end, body, Index(t, Closing(body)))
    else Found(Placeholder(placeholder), t[end + 2..])
  }

  /** The tree of a text. */
  function Parse(t: string): Template
    decreases |t|
  {
    if t == "" then End(Complete)
    else
      var start := Index(t, PLACEHOLDER_START);
      if start == -1 then Then(Literal(t), End(Complete))
      else
        var end := Index(t, PLACEHOLDER_END);
        if end < start then End(MissingSeparator(t))
        else
          MarkersApart(t);
          var parsed :=
            match ScanPlaceholder(t, start, end)
            case Broken(ending) => End(ending)
            case Found(node, rest) => Then(node, Parse(rest));
          if start == 0 then parsed else Then(Literal(t[..start]), parsed)
  }

  function AfterScan(scan: Scan): Template {
    match scan
    case Broken(ending) => End(ending)
    case Found(node, rest) => Then(node, Parse(rest))
  }

  /** The end marker found by the scanner never overlaps the start marker. */
  lemma MarkersApart(t: string)
    ensures var start, end := Index(t, PLACEHOLDER_START), Index(t, PLACEHOLDER_END);
            0 <= start <= end ==> start + 2 <= end
  {
    var start, end := Index(t, PLACEHOLDER_START), Index(t, PLACEHOLDER_END);
    IndexIsFirst(t, PLACEHOLDER_START);
    IndexIsFirst(t, PLACEHOLDER_END);
    if 0 <= start <= end {
      assert t[start..start + 2] == [t[start], t[start + 1]] == PLACEHOLDER_START;
      assert t[end..end + 2] == [t[end], t[end + 1]] == PLACEHOLDER_END;
    }
  }

  // ----------------------------------------------------------------------------------- execution

  datatype Error = SeparatorMissing(template: string) | BlockEndMissing(marker: string) | FragmentMissing(name: string)

  /** What a call returns; Panicked is Go's run-time panic. */
  datatype Reply = Ok | Failed(error: Error) | Panicked

  /** The meta data and the formatting of values by fmt. */
  datatype Env = Env(data: Option<map<string, Value>>, format: Value -> string)

  /** What the text between two markers asks for. */
  datatype Directive = Include(name: string) | Variable(key: string)

  function Classify(body: string): Directive {
    var trimmed := TrimSpace(body);
    if HasPrefix(trimmed, START_INCLUDE) then Include(TrimSpace(trimmed[1..])) else Variable(trimmed)
  }

  function CallsOf(node: Node): set<string> {
    match node
    case Literal(_) => {}
    case Placeholder(body) => (match Classify(body) case Include(name) => {name} case Variable(_) => {})
    case Block(body, _) => {TrimSpace(body)}
    case Fused(body) => {TrimSpace(body)}
  }

  /** The fragments a template may call. */
  function Calls(template: Template): set<string> {
    match template
    case End(_) => {}
    case Then(node, next) => CallsOf(node) + Calls(next)
  }

  ghost predicate Callable<S(!new)>(names: set<string>, nested: (string, S) --> (S, Reply)) {
    forall name, s :: name in names ==> nested.requires(name, s)
  }

  function ErrorOf(ending: Ending, template: string): Reply {
    match ending
    case Complete => Ok
    case MissingSeparator(_) => Failed(SeparatorMissing(template))
    case MissingBlockEnd(body, _) => Failed(BlockEndMissing(Closing(body)))
  }

  /** The meaning of one node: how it changes the state s behind the writer and the nested calls. */
  function DenoteNode<S(!new)>(node: Node, env: Env, write: (S, string) -> S, nested: (string, S) --> (S, Reply), s: S): (S, Reply)
    requires Callable(CallsOf(node), nested)
  {
    match node
    case Literal(text) => (write(s, text), Ok)
    case Placeholder(body) =>
      (match Classify(body)
       case Include(name) => nested(name, s)
       case Variable(key) =>
         (match Lookup(env.data, key)
          case None => (s, Ok)
          case Some(d) => (write(s, env.format(d)), Ok)))
    case Block(body, alt) =>
      var (s', reply) := nested(TrimSpace(body), s);
      if reply.Failed? then (write(s', alt), Ok) else (s', reply)
    case Fused(body) =>
      var (s', reply) := nested(TrimSpace(body), s);
      (s', if reply.Ok? then Ok else Panicked)
  }

  /** The meaning of a tree; text is quoted in the error about a missing separator. */
  function Denote<S(!new)>(text: string, template: Template, env: Env,
                           write: (S, string) -> S, nested: (string, S) --> (S, Reply), s: S): (S, Reply)
    requires Callable(Calls(template), nested)
    decreases template
  {
    match template
    case End(ending) => (s, ErrorOf(ending, text))
    case Then(node, next) =>
      var (s', reply) := DenoteNode(node, env, write, nested, s);
      if reply.Ok? then Denote(text, next, env, write, nested, s') else (s', reply)
  }

  // ------------------------------------------------------------------------------------ the loop

  /** The scanning loop: it never builds a tree, and does what the tree of the text means. */
  method ExecuteTemplate<S(!new)>(template: string, env: Env, write: (S, string) -> S,
                                  nested: (string, S) --> (S, Reply), initial: S)
    returns (s: S, reply: Reply)
    requires Callable(Calls(Parse(template)), nested)
    requires forall s :: write(s, "") == s
    ensures (s, reply) == Denote(template, Parse(template), env, write, nested, initial)
  {
    s := initial;
    var t := template;
    while |t| > 0
      invariant Callable(Calls(Parse(t)), nested)
      invariant Denote(template, Parse(template), env, write, nested, initial)
             == Denote(template, Parse(t), env, write, nested, s)
      decreases |t|
    {
      var start := Index(t, PLACEHOLDER_START);
      if start > -1 {
        var end := Index(t, PLACEHOLDER_END);
        if end < start {
          return s, Failed(SeparatorMissing(template));
        }
        MarkersApart(t);
        DenoteLiteral(template, t, start, AfterScan(ScanPlaceholder(t, start, end)), env, write, nested, s);
        s := write(s, t[..start]);
        var r;
        s, r, t := ExecutePlaceholder(template, t, start, end, env, write, nested, s);
        if !r.Ok? {
          return s, r;
        }
      } else {
        s := write(s, t);
        t := "";
      }
    }
    reply := Ok;
  }

  lemma DenoteLiteral<S(!new)>(text: string, t: string, start: nat, parsed: Template, env: Env,
                               write: (S, string) -> S, nested: (string, S) --> (S, Reply), s: S)
    requires start <= |t| && write(s, "") == s
    requires Callable(Calls(if start == 0 then parsed else Then(Literal(t[..start]), parsed)), nested)
    ensures Callable(Calls(parsed), nested)
    ensures Denote(text, if start == 0 then parsed else Then(Literal(t[..start]), parsed), env, write, nested, s)
         == Denote(text, parsed, env, write, nested, write(s, t[..start]))
  {
    assert Calls(Then(Literal(t[..start]), parsed)) == Calls(parsed);
  }

  /** What stands between the markers, and the text behind it. */
  method ExecutePlaceholder<S(!new)>(template: string, t: string, start: nat, end: nat, env: Env, write: (S, string) -> S,
                                     nested: (string, S) --> (S, Reply), initial: S)
    returns (s: S, reply: Reply, rest: string)
    requires start + 2 <= end && end + 2 <= |t|
    requires Callable(Calls(AfterScan(ScanPlaceholder(t, start, end))), nested)
    ensures |rest| < |t|
    ensures reply.Ok? ==> Callable(Calls(Parse(rest)), nested)
    ensures Denote(template, AfterScan(ScanPlaceholder(t, start, end)), env, write, nested, initial)
         == if reply.Ok? then Denote(template, Parse(rest), env, write, nested, s) else (s, reply)
  {
    var placeholder := t[start + |PLACEHOLDER_START|..end];
    if HasPrefix(placeholder, START_INCLUDE_BLOCK) {
      s, reply, rest := ExecuteBlock(template, t, start, end, env, write, nested, initial);
    } else {
      rest := t[end + |PLACEHOLDER_END|..];
      DenoteThen(template, Placeholder(placeholder), Parse(rest), env, write, nested, initial);
      s, reply := WritePlaceholder(placeholder, env, write, nested, initial);
    }
  }

  /** The block branch of the loop: the call, the alternative text, and the text behind the block. */
  method ExecuteBlock<S(!new)>(template: string, t: string, start: nat, end: nat, env: Env, write: (S, string) -> S,
                               nested: (string, S) --> (S, Reply), initial: S)
    returns (s: S, reply: Reply, rest: string)
    requires start + 2 <= end && end + 2 <= |t| && HasPrefix(t[start + 2..end], START_INCLUDE_BLOCK)
    requires Callable(Calls(AfterScan(ScanPlaceholder(t, start, end))), nested)
    ensures |rest| < |t|
    ensures reply.Ok? ==> Callable(Calls(Parse(rest)), nested)
    ensures Denote(template, AfterScan(ScanPlaceholder(t, start, end)), env, write, nested, initial)
         == if reply.Ok? then Denote(template, Parse(rest), env, write, nested, s) else (s, reply)
  {
    rest := "";
    var body := t[start + 2..end][|START_INCLUDE_BLOCK|..];
    var name := TrimSpace(body);
    var blockEndText := PLACEHOLDER_START + END_INCLUDE_BLOCK + name + PLACEHOLDER_END;
    var blockEndTextPosition := Index(t, blockEndText);
    if blockEndTextPosition < end {
      return initial, Failed(BlockEndMissing(blockEndText)), rest;
    }
    rest := t[blockEndTextPosition + |blockEndText|..];
    ghost var node := if blockEndTextPosition < end + 2 then Fused(body) else Block(body, t[end + 2..blockEndTextPosition]);
    assert AfterScan(ScanPlaceholder(t, start, end)) == Then(node, Parse(rest));
    DenoteThen(template, node, Parse(rest), env, write, nested, initial);
    var (s', r) := nested(name, initial);
    s, reply := s', r;
    if r.Failed? {
      if blockEndTextPosition < end + |PLACEHOLDER_END| {
        return s, Panicked, rest;  // slice bounds out of range
      }
      s, reply := write(s, t[end + |PLACEHOLDER_END|..blockEndTextPosition]), Ok;
    }
  }

  lemma DenoteThen<S(!new)>(text: string, node: Node, next: Template, env: Env,
                            write: (S, string) -> S, nested: (string, S) --> (S, Reply), s: S)
    requires Callable(Calls(Then(node, next)), nested)
    ensures Callable(CallsOf(node), nested) && Callable(Calls(next), nested)
    ensures Denote(text, Then(node, next), env, write, nested, s)
         == var (s', reply) := DenoteNode(node, env, write, nested, s);
            if reply.Ok? then Denote(text, next, env, write, nested, s') else (s', reply)
  {
    assert Calls(Then(node, next)) == CallsOf(node) + Calls(next);
  }

  method WritePlaceholder<S(!new)>(placeholder: string, env: Env, write: (S, string) -> S,
                                   nested: (string, S) --> (S, Reply), initial: S)
    returns (s: S, reply: Reply)
    requires Callable(CallsOf(Placeholder(placeholder)), nested)
    ensures (s, reply) == DenoteNode(Placeholder(placeholder), env, write, nested, initial)
  {
    s := initial;
    var trimmed := TrimSpace(placeholder);
    if HasPrefix(trimmed, START_INCLUDE) {
      var name := TrimSpace(trimmed[|START_INCLUDE|..]);
      var (s', r) := nested(name, s);
      return s', r;
    }
    var d := GetDataFromMap(env.data, trimmed);
    if d.Some? {
      s := write(s, env.format(d.value));
    }
    reply := Ok;
  }

  /** A template without executor, as used for URLs: calling the missing executor panics. */
  method ExpandTemplateVars(template: string, env: Env) returns (text: string, reply: Reply)
    ensures (text, reply) == Denote(template, Parse(template), env, (w: string, x: string) => w + x, (_: string, w: string) => (w, Panicked), "")
  {
    assert forall w: string :: w + "" == w;
    text, reply := ExecuteTemplate(template, env, (w: string, x: string) => w + x, (_: string, w: string) => (w, Panicked), "");
  }
}
