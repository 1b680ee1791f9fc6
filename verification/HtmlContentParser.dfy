/** Turning the token stream of a page into a head, named fragments, a tail, meta data and dependencies. */
module HtmlContentParser {
  import opened Wrappers
  import opened Strings
  import opened Html
  import opened Templating
  import opened Rendering
  import opened Includes
  import opened Fragments

  const UIC_REMOVE := "uic-remove"
  const UIC_INCLUDE := "uic-include"
  const UIC_FETCH := "uic-fetch"
  const UIC_FRAGMENT := "uic-fragment"
  const UIC_TAIL := "uic-tail"
  const SCRIPT_TYPE_META := "text/uic-meta"

  /** Elements without content, as listed in section 12.1.2 of the HTML standard. */
  const VOID_ELEMENTS := {"area", "base", "br", "col", "command", "embed", "hr", "img", "input", "keygen", "link", "meta",
                          "param", "source", "track", "wbr"}

  /** What a JSON text holds for the meta data: null makes a new start, an object adds its entries. */
  datatype MetaJson = NullMeta | MetaObject(entries: map<string, Value>)

  function AddMeta(meta: map<string, Value>, json: MetaJson): map<string, Value> {
    match json
    case NullMeta => map[]
    case MetaObject(entries) => meta + entries
  }

  /** JSON decoding, Fprintf with a text as its format, and number parsing. */
  datatype Foreign = Foreign(decode: string -> Option<MetaJson>, fprintf: string -> string, atoi: string -> Option<int>)

  datatype ParseError =
    | TokenizerFailed(message: string)
    | MetaTextExpected | MetaJsonInvalid | MetaNotClosed
    | IncludeRefused(cause: IncludeError)
    | FetchWithoutSrc | BadTimeout(text: string) | BadRequired(text: string)

  // -------------------------------------------------------------------------------------------- tokens

  predicate IsEnd(t: Token, name: string) {
    t.EndTag? && t.name == name
  }

  predicate IsRemoved(t: Token) {
    IsOpenTag(t) && GetAttr(t.attrs, UIC_REMOVE).Some?
  }

  predicate IsMetaScript(t: Token) {
    IsNamed(t, "script") && AttrHasValue(t.attrs, "type", SCRIPT_TYPE_META)
  }

  predicate IsStylesheet(t: Token) {
    IsNamed(t, "link") && AttrHasValue(t.attrs, "rel", "stylesheet")
  }

  /** Whether an end tag is to be expected for this token. */
  predicate OpensSubtree(t: Token) {
    t.StartTag? && t.name !in VOID_ELEMENTS
  }

  class Tokenizer {
    const tokens: seq<Token>
    /** None if the stream ends with io.EOF. */
    const failure: Option<string>
    var pos: nat

    constructor (ts: seq<Token>, f: Option<string>)
      ensures tokens == ts && failure == f && pos == 0
    {
      tokens, failure, pos := ts, f, 0;
    }

    function Rest(): seq<Token>
      reads this
    {
      if pos <= |tokens| then tokens[pos..] else []
    }

    /** None stands for the error token. */
    method Next() returns (t: Option<Token>)
      modifies this
      ensures t == if old(Rest()) == [] then None else Some(old(Rest())[0])
      ensures Rest() == if old(Rest()) == [] then [] else old(Rest())[1..]
    {
      if pos < |tokens| {
        t := Some(tokens[pos]);
        pos := pos + 1;
      } else {
        t := None;
      }
    }
  }

  /** What is behind the end tag that closes the innermost of depth + 1 open elements. */
  function Skip(tokens: seq<Token>, depth: nat): (rest: seq<Token>)
    ensures |rest| <= |tokens|
  {
    if tokens == [] then []
    else if OpensSubtree(tokens[0]) then Skip(tokens[1..], depth + 1)
    else if tokens[0].EndTag? then (if depth == 0 then tokens[1..] else Skip(tokens[1..], depth - 1))
    else Skip(tokens[1..], depth)
  }

  /** What is behind a removed tag and everything in it. */
  function BehindRemoved(t: Token, rest: seq<Token>): (r: seq<Token>)
    ensures |r| <= |rest|
  {
    if OpensSubtree(t) then Skip(rest, 0) else rest
  }

  method SkipSubtreeIfUicRemove(z: Tokenizer, t: Token) returns (skipped: bool)
    requires IsOpenTag(t)
    modifies z
    ensures skipped == IsRemoved(t)
    ensures z.Rest() == if skipped then BehindRemoved(t, old(z.Rest())) else old(z.Rest())
  {
    if GetAttr(t.attrs, UIC_REMOVE).None? {
      return false;
    }
    if t.SelfClosingTag? || t.name in VOID_ELEMENTS {
      return true;
    }
    var depth := 0;
    while true
      invariant depth >= 0
      invariant Skip(z.Rest(), depth) == Skip(old(z.Rest()), 0)
      decreases |z.Rest()|
    {
      var next := z.Next();
      if next.None? {
        return true;
      }
      if OpensSubtree(next.value) {
        depth := depth + 1;
      } else if next.value.EndTag? {
        depth := depth - 1;
        if depth < 0 {
          return true;
        }
      }
    }
  }

  /** What a scan has gathered, and how it ended; rest counts only without an error. */
  datatype Outcome<A> = Outcome(acc: A, rest: seq<Token>, error: Option<ParseError>)

  function AtEndOfTokens<A>(acc: A, failure: Option<string>): Outcome<A> {
    Outcome(acc, [], match failure case None => None case Some(message) => Some(TokenizerFailed(message)))
  }

  // ---------------------------------------------------------------------------------------------- head

  datatype HeadAcc = HeadAcc(out: string, sheets: seq<Stylesheet>, meta: map<string, Value>)

  /** The text and the end tag of a meta script. */
  function MetaScan(tokens: seq<Token>, meta: map<string, Value>, env: Foreign): (o: Outcome<map<string, Value>>)
    ensures |o.rest| <= |tokens|
  {
    if tokens == [] || !tokens[0].TextToken? then Outcome(meta, [], Some(MetaTextExpected))
    else
      match env.decode(tokens[0].raw)
      case None => Outcome(meta, [], Some(MetaJsonInvalid))
      case Some(more) =>
        if |tokens| == 1 || !IsEnd(tokens[1], "script") then Outcome(AddMeta(meta, more), [], Some(MetaNotClosed))
        else Outcome(AddMeta(meta, more), tokens[2..], None)
  }

  function HeadScan(tokens: seq<Token>, failure: Option<string>, acc: HeadAcc, env: Foreign): (o: Outcome<HeadAcc>)
    ensures |o.rest| <= |tokens|
    decreases |tokens|
  {
    if tokens == [] then AtEndOfTokens(acc, failure)
    else
      var t, rest := tokens[0], tokens[1..];
      if IsRemoved(t) then HeadScan(BehindRemoved(t, rest), failure, acc, env)
      else if IsMetaScript(t) then
        var script := MetaScan(rest, acc.meta, env);
        var acc' := acc.(meta := script.acc);
        if script.error.Some? then Outcome(acc', [], script.error)
        else HeadScan(script.rest, failure, acc', env)
      else if IsStylesheet(t) then HeadScan(rest, failure, acc.(sheets := acc.sheets + [t.attrs]), env)
      else if IsEnd(t, "head") then Outcome(acc, rest, None)
      else HeadScan(rest, failure, acc.(out := acc.out + t.raw), env)
  }

  /** The fragment made of a text and stylesheets, unless both are empty. */
  function NonEmptyFragment(out: string, sheets: seq<Stylesheet>): Option<Fragment> {
    var st := TrimBlanks(out);
    if |st| > 0 || |sheets| > 0 then Some(Fragment(st, sheets)) else None
  }

  ghost predicate IsHead(head: Option<StringFragment>, before: Option<StringFragment>, fragment: Option<Fragment>)
    reads if head.Some? then {head.value} else {}
  {
    if fragment.Some? then head.Some? && head.value.Value() == fragment.value else head == before
  }

  method ParseHead(z: Tokenizer, c: MemoryContent, env: Foreign) returns (error: Option<ParseError>)
    modifies z, c`meta, c`head
    ensures var o := HeadScan(old(z.Rest()), z.failure, HeadAcc("", [], old(c.meta)), env);
            && error == o.error && c.meta == o.acc.meta
            && (error.Some? ==> c.head == old(c.head))
            && (error.None? ==> z.Rest() == o.rest && IsHead(c.head, old(c.head), NonEmptyFragment(o.acc.out, o.acc.sheets)))
  {
    var headBuff, stylesheets := "", [];
    while true
      invariant c.head == old(c.head)
      invariant HeadScan(old(z.Rest()), z.failure, HeadAcc("", [], old(c.meta)), env)
             == HeadScan(z.Rest(), z.failure, HeadAcc(headBuff, stylesheets, c.meta), env)
      decreases |z.Rest()|
    {
      var next := z.Next();
      if next.None? {
        if z.failure.Some? {
          return Some(TokenizerFailed(z.failure.value));
        }
        break;
      }
      var t := next.value;
      if IsOpenTag(t) {
        var skipped := SkipSubtreeIfUicRemove(z, t);
        if skipped {
          continue;
        }
        if IsMetaScript(t) {
          error := ParseMetaJson(z, c, env);
          if error.Some? {
            return;
          }
          continue;
        }
        if IsStylesheet(t) {
          stylesheets := stylesheets + [t.attrs];
          continue;
        }
      } else if IsEnd(t, "head") {
        break;
      }
      headBuff := headBuff + t.raw;
    }
    var st := TrimBlanks(headBuff);
    if |st| > 0 || |stylesheets| > 0 {
      var frg := NewFragment(st, stylesheets);
      c.head := Some(frg);
    }
    error := None;
  }

  method ParseMetaJson(z: Tokenizer, c: MemoryContent, env: Foreign) returns (error: Option<ParseError>)
    modifies z, c`meta
    ensures var o := MetaScan(old(z.Rest()), old(c.meta), env);
            error == o.error && c.meta == o.acc && (error.None? ==> z.Rest() == o.rest)
    ensures |z.Rest()| <= |old(z.Rest())|
  {
    var tokens := z.Rest();
    var text := z.Next();
    if text.None? || !text.value.TextToken? {
      return Some(MetaTextExpected);
    }
    var decoded := env.decode(text.value.raw);
    if decoded.None? {
      return Some(MetaJsonInvalid);
    }
    c.meta := AddMeta(c.meta, decoded.value);
    var end := z.Next();
    if end.None? || !IsEnd(end.value, "script") {
      return Some(MetaNotClosed);
    }
    error := None;
  }

  // ------------------------------------------------------------------------------------- uic-fetch

  /** Placeholders in a URL are masked, so that the name is no template. */
  function UrlToName(url: string): string {
    ReplaceAll(ReplaceAll(url, PLACEHOLDER_START, "\\\U{A7}\\["), PLACEHOLDER_END, "\\]\\\U{A7}")
  }

  datatype Fetched = Fetched(fetch: Fetch) | FetchRefused(error: ParseError)

  function GetFetch(attrs: seq<Attribute>, env: Foreign): Fetched {
    match GetAttr(attrs, "src")
    case None => FetchRefused(FetchWithoutSrc)
    case Some(src) =>
      var url := TrimSpace(src.val);
      var name := match GetAttr(attrs, "name") case Some(a) => a.val case None => UrlToName(url);
      var timeout := match GetAttr(attrs, "timeout") case None => Some(0) case Some(a) => env.atoi(a.val);
      var required := match GetAttr(attrs, "required") case None => Some(false) case Some(a) => ParseBool(a.val);
      var discoveredBy := match GetAttr(attrs, "discoveredby") case None => None case Some(a) => Some(a.val);
      if timeout.None? then FetchRefused(BadTimeout(GetAttr(attrs, "timeout").value.val))
      else if required.None? then FetchRefused(BadRequired(GetAttr(attrs, "required").value.val))
      else Fetched(Fetch(url, name, timeout.value, required.value, discoveredBy))
  }

  // ------------------------------------------------------------------------------------- uic-fragment

  datatype FragmentAcc = FragmentAcc(out: string, sheets: seq<Stylesheet>, dependencies: map<string, Params>)

  /** An include inside a fragment; its markers are written with Fprintf, as the format. */
  function AddInclude(acc: FragmentAcc, e: Emitted, env: Foreign): FragmentAcc
    requires e.Emitted?
  {
    FragmentAcc(acc.out + env.fprintf(e.startMarker) + env.fprintf(e.endMarker), acc.sheets, acc.dependencies[e.dependency := e.params])
  }

  function FragmentScan(tokens: seq<Token>, failure: Option<string>, acc: FragmentAcc, env: Foreign): (o: Outcome<FragmentAcc>)
    ensures |o.rest| <= |tokens|
    decreases |tokens|
  {
    if tokens == [] then AtEndOfTokens(acc, failure)
    else
      var t, rest := tokens[0], tokens[1..];
      if IsNamed(t, UIC_INCLUDE) then
        (match GetInclude(t.attrs)
         case Refused(e) => Outcome(acc, [], Some(IncludeRefused(e)))
         case Emitted(s, e, d, p) => FragmentScan(rest, failure, AddInclude(acc, Emitted(s, e, d, p), env), env))
      else if IsRemoved(t) then FragmentScan(BehindRemoved(t, rest), failure, acc, env)
      else if IsStylesheet(t) then FragmentScan(rest, failure, acc.(sheets := acc.sheets + [t.attrs]), env)
      else if IsEnd(t, UIC_FRAGMENT) || IsEnd(t, UIC_TAIL) then Outcome(acc, rest, None)
      else FragmentScan(rest, failure, acc.(out := acc.out + t.raw), env)
  }

  method ParseFragment(z: Tokenizer, env: Foreign)
    returns (f: StringFragment, dependencies: map<string, Params>, error: Option<ParseError>)
    modifies z
    ensures fresh(f) && |z.Rest()| <= |old(z.Rest())|
    ensures var o := FragmentScan(old(z.Rest()), z.failure, FragmentAcc("", [], map[]), env);
            error == o.error && (error.None? ==>
              z.Rest() == o.rest && f.Value() == Fragment(o.acc.out, o.acc.sheets) && dependencies == o.acc.dependencies)
  {
    f := new StringFragment("");
    dependencies, error := map[], None;
    var buff, stylesheets := "", [];
    while true
      invariant |z.Rest()| <= |old(z.Rest())|
      invariant FragmentScan(old(z.Rest()), z.failure, FragmentAcc("", [], map[]), env)
             == FragmentScan(z.Rest(), z.failure, FragmentAcc(buff, stylesheets, dependencies), env)
      decreases |z.Rest()|
    {
      var next := z.Next();
      if next.None? {
        if z.failure.Some? {
          error := Some(TokenizerFailed(z.failure.value));
          return;
        }
        break;
      }
      var t := next.value;
      if IsOpenTag(t) {
        if t.name == UIC_INCLUDE {
          match GetInclude(t.attrs) {
            case Refused(e) =>
              error := Some(IncludeRefused(e));
              return;
            case Emitted(startMarker, endMarker, name, params) =>
              dependencies := dependencies[name := params];
              buff := buff + env.fprintf(startMarker);
              buff := buff + env.fprintf(endMarker);
              continue;
          }
        }
        var skipped := SkipSubtreeIfUicRemove(z, t);
        if skipped {
          continue;
        }
        if IsStylesheet(t) {
          stylesheets := stylesheets + [t.attrs];
          continue;
        }
      } else if IsEnd(t, UIC_FRAGMENT) || IsEnd(t, UIC_TAIL) {
        break;
      }
      buff := buff + t.raw;
    }
    f := NewFragment(buff, stylesheets);
  }

  // --------------------------------------------------------------------------------------------- body

  /** The parts of a page that the body fills in. */
  datatype PageParts = PageParts(body: map<string, Fragment>, tail: Option<Fragment>, dependencies: map<string, Params>,
                                 requiredContent: map<string, Fetch>)

  datatype BodyAcc = BodyAcc(page: PageParts, out: string, sheets: seq<Stylesheet>)

  /** The name attribute, or the empty name. */
  function GetFragmentName(attrs: seq<Attribute>): string {
    match GetAttr(attrs, "name") case Some(a) => a.val case None => ""
  }

  /** A finished fragment goes to the tail or to the body, and its dependencies to the page. */
  function AddFragment(page: PageParts, t: Token, f: FragmentAcc): PageParts
    requires IsOpenTag(t)
  {
    var fragment, dependencies := Fragment(f.out, f.sheets), page.dependencies + f.dependencies;
    if t.name == UIC_FRAGMENT then page.(body := page.body[GetFragmentName(t.attrs) := fragment], dependencies := dependencies)
    else page.(tail := Some(fragment), dependencies := dependencies)
  }

  function WithInclude(acc: BodyAcc, e: Emitted): BodyAcc
    requires e.Emitted?
  {
    acc.(page := acc.page.(dependencies := acc.page.dependencies[e.dependency := e.params]),
         out := acc.out + e.startMarker + e.endMarker)
  }

  function FetchInBody(acc: BodyAcc, fetch: Fetch): BodyAcc {
    acc.(page := acc.page.(requiredContent := acc.page.requiredContent[fetch.url := fetch]))
  }

  /** A tag that is neither removed nor the start of a fragment. */
  function TagInBody(t: Token, acc: BodyAcc, env: Foreign): (BodyAcc, Option<ParseError>) {
    if IsNamed(t, UIC_FETCH) then
      (match GetFetch(t.attrs, env)
       case FetchRefused(e) => (acc, Some(e))
       case Fetched(fetch) => (FetchInBody(acc, fetch), None))
    else if IsNamed(t, UIC_INCLUDE) then
      var e := GetInclude(t.attrs);
      if e.Refused? then (acc, Some(IncludeRefused(e.error))) else (WithInclude(acc, e), None)
    else if IsStylesheet(t) then (acc.(sheets := acc.sheets + [t.attrs]), None)
    else (acc.(out := acc.out + t.raw), None)
  }

  predicate StartsFragment(t: Token) {
    IsNamed(t, UIC_FRAGMENT) || IsNamed(t, UIC_TAIL)
  }

  function BodyScan(tokens: seq<Token>, failure: Option<string>, acc: BodyAcc, env: Foreign): (o: Outcome<BodyAcc>)
    ensures |o.rest| <= |tokens|
    decreases |tokens|
  {
    if tokens == [] then AtEndOfTokens(acc, failure)
    else
      var t, rest := tokens[0], tokens[1..];
      if IsRemoved(t) then BodyScan(BehindRemoved(t, rest), failure, acc, env)
      else if StartsFragment(t) then
        var f := FragmentScan(rest, failure, FragmentAcc("", [], map[]), env);
        if f.error.Some? then Outcome(acc, [], f.error)
        else BodyScan(f.rest, failure, acc.(page := AddFragment(acc.page, t, f.acc)), env)
      else if IsEnd(t, "body") then Outcome(acc, rest, None)
      else
        var (acc', error) := TagInBody(t, acc, env);
        if error.Some? then Outcome(acc', [], error) else BodyScan(rest, failure, acc', env)
  }

  /** What was not taken out of the body becomes the default fragment, unless there is an explicit one. */
  function WithDefaultFragment(acc: BodyAcc): PageParts {
    var f := NonEmptyFragment(acc.out, acc.sheets);
    if "" !in acc.page.body && f.Some? then acc.page.(body := acc.page.body["" := f.value]) else acc.page
  }

  function Bodies(c: MemoryContent): map<string, Fragment>
    reads c`body, c.body.Values
  {
    map name | name in c.body :: c.body[name].Value()
  }

  function Tail(c: MemoryContent): Option<Fragment>
    reads c`tail, if c.tail.Some? then {c.tail.value} else {}
  {
    if c.tail.Some? then Some(c.tail.value.Value()) else None
  }

  /** The parts as values. */
  function PartsOf(c: MemoryContent): PageParts
    reads c`body, c`tail, c`dependencies, c`requiredContent, c.body.Values, if c.tail.Some? then {c.tail.value} else {}
  {
    PageParts(Bodies(c), Tail(c), c.dependencies, c.requiredContent)
  }

  method ParseBody(z: Tokenizer, c: MemoryContent, bodyTag: Token, env: Foreign) returns (error: Option<ParseError>)
    requires IsOpenTag(bodyTag)
    modifies z, c`bodyAttributes, c`body, c`tail, c`dependencies, c`requiredContent
    ensures c.bodyAttributes == old(c.bodyAttributes) + bodyTag.attrs
    ensures var o := BodyScan(old(z.Rest()), z.failure, BodyAcc(old(PartsOf(c)), "", []), env);
            && error == o.error
            && (error.Some? ==> PartsOf(c) == o.acc.page)
            && (error.None? ==> PartsOf(c) == WithDefaultFragment(o.acc) && z.Rest() == o.rest)
  {
    c.bodyAttributes := c.bodyAttributes + bodyTag.attrs;
    ghost var scan := BodyScan(z.Rest(), z.failure, BodyAcc(PartsOf(c), "", []), env);
    var bodyBuff, stylesheets, more := "", [], true;
    error := None;
    while more
      invariant c.bodyAttributes == old(c.bodyAttributes) + bodyTag.attrs
      invariant more ==> scan == BodyScan(z.Rest(), z.failure, BodyAcc(PartsOf(c), bodyBuff, stylesheets), env)
      invariant !more ==> scan.acc == BodyAcc(PartsOf(c), bodyBuff, stylesheets) && scan.error == error
      invariant !more && error.None? ==> scan.rest == z.Rest()
      decreases more, |z.Rest()|
    {
      bodyBuff, stylesheets, more, error := ParseBodyToken(z, c, bodyBuff, stylesheets, env);
    }
    if error.None? {
      FinishBody(c, bodyBuff, stylesheets);
    }
  }

  /** One round of the loop of parseBody; more is false if the loop is left. */
  method ParseBodyToken(z: Tokenizer, c: MemoryContent, bodyBuff: string, stylesheets: seq<Stylesheet>, env: Foreign)
    returns (bodyBuff': string, stylesheets': seq<Stylesheet>, more: bool, error: Option<ParseError>)
    modifies z, c`body, c`tail, c`dependencies, c`requiredContent
    ensures var scan := BodyScan(old(z.Rest()), z.failure, BodyAcc(old(PartsOf(c)), bodyBuff, stylesheets), env);
            var acc := BodyAcc(PartsOf(c), bodyBuff', stylesheets');
            && (more ==> |z.Rest()| < |old(z.Rest())| && error.None? && scan == BodyScan(z.Rest(), z.failure, acc, env))
            && (!more ==> scan.acc == acc && scan.error == error && (error.None? ==> scan.rest == z.Rest()))
  {
    bodyBuff', stylesheets', more, error := bodyBuff, stylesheets, false, None;
    var next := z.Next();
    if next.None? {
      if z.failure.Some? {
        error := Some(TokenizerFailed(z.failure.value));
      }
      return;
    }
    var t := next.value;
    if IsOpenTag(t) {
      more := SkipSubtreeIfUicRemove(z, t);
      if more {
        return;
      }
      if StartsFragment(t) {
        error := ParseFragmentInto(z, c, t, env);
        more := error.None?;
        return;
      }
    } else if IsEnd(t, "body") {
      return;
    }
    bodyBuff', stylesheets', error := ProcessBodyToken(c, t, bodyBuff, stylesheets, env);
    more := error.None?;
  }

  /** The branches for uic-fetch, uic-include and stylesheet links, and for everything that is copied. */
  method ProcessBodyToken(c: MemoryContent, t: Token, bodyBuff: string, stylesheets: seq<Stylesheet>, env: Foreign)
    returns (bodyBuff': string, stylesheets': seq<Stylesheet>, error: Option<ParseError>)
    modifies c`dependencies, c`requiredContent
    ensures TagInBody(t, BodyAcc(old(PartsOf(c)), bodyBuff, stylesheets), env)
         == (BodyAcc(PartsOf(c), bodyBuff', stylesheets'), error)
  {
    bodyBuff', stylesheets', error := bodyBuff, stylesheets, None;
    if IsNamed(t, UIC_FETCH) {
      match GetFetch(t.attrs, env) {
        case FetchRefused(e) =>
          error := Some(e);
        case Fetched(fd) =>
          c.requiredContent := c.requiredContent[fd.url := fd];
      }
    } else if IsNamed(t, UIC_INCLUDE) {
      match GetInclude(t.attrs) {
        case Refused(e) =>
          error := Some(IncludeRefused(e));
        case Emitted(startMarker, endMarker, name, params) =>
          c.dependencies := c.dependencies[name := params];
          bodyBuff' := bodyBuff + startMarker + endMarker;
      }
    } else if IsStylesheet(t) {
      stylesheets' := stylesheets + [t.attrs];
    } else {
      bodyBuff' := bodyBuff + t.raw;
    }
  }

  method FinishBody(c: MemoryContent, bodyBuff: string, stylesheets: seq<Stylesheet>)
    modifies c`body
    ensures PartsOf(c) == WithDefaultFragment(BodyAcc(old(PartsOf(c)), bodyBuff, stylesheets))
  {
    assert "" in c.body <==> "" in PartsOf(c).body;
    var st := TrimBlanks(bodyBuff);
    if "" !in c.body && (|st| > 0 || |stylesheets| > 0) {
      var frg := NewFragment(st, stylesheets);
      PutBody(c, "", frg);
    }
  }

  method NewFragment(content: string, stylesheets: seq<Stylesheet>) returns (f: StringFragment)
    ensures fresh(f) && f.Value() == Fragment(content, stylesheets)
  {
    f := new StringFragment(content);
    f.AddStylesheets(stylesheets);
  }

  method PutBody(c: MemoryContent, name: string, f: StringFragment)
    modifies c`body
    ensures PartsOf(c) == old(PartsOf(c)).(body := old(PartsOf(c)).body[name := f.Value()])
  {
    c.body := c.body[name := f];
  }

  method AddDependencies(c: MemoryContent, dependencies: map<string, Params>)
    modifies c`dependencies
    ensures PartsOf(c) == old(PartsOf(c)).(dependencies := old(PartsOf(c)).dependencies + dependencies)
  {
    c.dependencies := c.dependencies + dependencies;
  }

  method SetTail(c: MemoryContent, f: StringFragment)
    modifies c`tail
    ensures PartsOf(c) == old(PartsOf(c)).(tail := Some(f.Value()))
  {
    c.tail := Some(f);
  }

  /** The branches for uic-fragment and uic-tail. */
  method ParseFragmentInto(z: Tokenizer, c: MemoryContent, t: Token, env: Foreign) returns (error: Option<ParseError>)
    requires StartsFragment(t)
    modifies z, c`body, c`tail, c`dependencies
    ensures |z.Rest()| <= |old(z.Rest())|
    ensures var o := FragmentScan(old(z.Rest()), z.failure, FragmentAcc("", [], map[]), env);
            && error == o.error
            && (error.Some? ==> PartsOf(c) == old(PartsOf(c)))
            && (error.None? ==> PartsOf(c) == AddFragment(old(PartsOf(c)), t, o.acc) && z.Rest() == o.rest)
  {
    var f, dependencies;
    f, dependencies, error := ParseFragment(z, env);
    if error.None? {
      if t.name == UIC_FRAGMENT {
        PutBody(c, GetFragmentName(t.attrs), f);
      } else {
        SetTail(c, f);
      }
      AddDependencies(c, dependencies);
    }
  }

  // ------------------------------------------------------------------------------------- whole document

  datatype Doc = Doc(head: Option<Fragment>, meta: map<string, Value>, parts: PageParts, bodyAttributes: seq<Attribute>)

  function HeadDoc(doc: Doc, o: Outcome<HeadAcc>): Doc {
    var head := NonEmptyFragment(o.acc.out, o.acc.sheets);
    doc.(meta := o.acc.meta, head := if o.error.None? && head.Some? then head else doc.head)
  }

  function BodyDoc(doc: Doc, t: Token, o: Outcome<BodyAcc>): Doc
    requires t.StartTag?
  {
    doc.(bodyAttributes := doc.bodyAttributes + t.attrs, parts := if o.error.Some? then o.acc.page else WithDefaultFragment(o.acc))
  }

  /** Heads and bodies wherever they start; every other token outside of them is passed over. */
  function DocScan(tokens: seq<Token>, failure: Option<string>, doc: Doc, env: Foreign): (Doc, Option<ParseError>)
    decreases |tokens|
  {
    if tokens == [] then (doc, AtEndOfTokens(doc, failure).error)
    else
      var t, rest := tokens[0], tokens[1..];
      if t.StartTag? && t.name == "head" then
        var o := HeadScan(rest, failure, HeadAcc("", [], doc.meta), env);
        if o.error.Some? then (HeadDoc(doc, o), o.error) else DocScan(o.rest, failure, HeadDoc(doc, o), env)
      else if t.StartTag? && t.name == "body" then
        var o := BodyScan(rest, failure, BodyAcc(doc.parts, "", []), env);
        if o.error.Some? then (BodyDoc(doc, t, o), o.error) else DocScan(o.rest, failure, BodyDoc(doc, t, o), env)
      else DocScan(rest, failure, doc, env)
  }

  function Head(c: MemoryContent): Option<Fragment>
    reads c`head, if c.head.Some? then {c.head.value} else {}
  {
    if c.head.Some? then Some(c.head.value.Value()) else None
  }

  function DocOf(c: MemoryContent): Doc
    reads c, c.body.Values, if c.tail.Some? then {c.tail.value} else {}, if c.head.Some? then {c.head.value} else {}
  {
    Doc(Head(c), c.meta, PartsOf(c), c.bodyAttributes)
  }

  method Parse(c: MemoryContent, z: Tokenizer, env: Foreign) returns (error: Option<ParseError>)
    modifies c, z
    ensures DocScan(old(z.Rest()), z.failure, old(DocOf(c)), env) == (DocOf(c), error)
  {
    ghost var scan := DocScan(z.Rest(), z.failure, DocOf(c), env);
    var more := true;
    error := None;
    while more
      invariant more ==> scan == DocScan(z.Rest(), z.failure, DocOf(c), env)
      invariant !more ==> scan == (DocOf(c), error)
      decreases more, |z.Rest()|
    {
      more, error := ParseTopLevel(c, z, env);
    }
  }

  /** One round of the loop over the document; more is false if the loop is left. */
  method ParseTopLevel(c: MemoryContent, z: Tokenizer, env: Foreign) returns (more: bool, error: Option<ParseError>)
    modifies c, z
    ensures var scan := DocScan(old(z.Rest()), z.failure, old(DocOf(c)), env);
            && (more ==> |z.Rest()| < |old(z.Rest())| && scan == DocScan(z.Rest(), z.failure, DocOf(c), env))
            && (!more ==> scan == (DocOf(c), error))
  {
    var next := z.Next();
    if next.None? {
      return false, if z.failure.Some? then Some(TokenizerFailed(z.failure.value)) else None;
    }
    var t := next.value;
    error := None;
    if t.StartTag? && t.name == "head" {
      error := ParseHeadOf(c, z, env);
    } else if t.StartTag? && t.name == "body" {
      error := ParseBodyOf(c, z, t, env);
    }
    more := error.None?;
  }

  method ParseHeadOf(c: MemoryContent, z: Tokenizer, env: Foreign) returns (error: Option<ParseError>)
    modifies c`head, c`meta, z
    ensures var o := HeadScan(old(z.Rest()), z.failure, HeadAcc("", [], old(DocOf(c)).meta), env);
            && DocOf(c) == HeadDoc(old(DocOf(c)), o) && error == o.error && (error.None? ==> z.Rest() == o.rest)
  {
    error := ParseHead(z, c, env);
  }

  method ParseBodyOf(c: MemoryContent, z: Tokenizer, t: Token, env: Foreign) returns (error: Option<ParseError>)
    requires t.StartTag?
    modifies c`bodyAttributes, c`body, c`tail, c`dependencies, c`requiredContent, z
    ensures var o := BodyScan(old(z.Rest()), z.failure, BodyAcc(old(DocOf(c)).parts, "", []), env);
            && DocOf(c) == BodyDoc(old(DocOf(c)), t, o) && error == o.error && (error.None? ==> z.Rest() == o.rest)
  {
    error := ParseBody(z, c, t, env);
  }
}
