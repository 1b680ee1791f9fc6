/** Merging parsed pages into one HTML page. */
module ContentMerge {
  import opened Wrappers
  import opened Strings
  import opened Html
  import opened Templating
  import opened FragmentIndex
  import opened Fragments
  import opened HeadDeduplication
  import opened StylesheetDeduplication
  import opened Rendering

  const DOCUMENT_START := "<!DOCTYPE html>\n<html>\n  <head>\n    "
  const HEAD_END := "\n  </head>"
  const BODY_START := "\n  <body"
  const BODY_START_END := ">\n    "
  const DOCUMENT_END := "\n  </body>\n</html>\n"

  // --------------------------------------------------------------------------------- body attributes

  function LowerChar(c: char): char {
    if 'A' <= c <= 'Z' then (c as int + 32) as char else c
  }

  function ToLower(t: string): string {
    if t == "" then "" else [LowerChar(t[0])] + ToLower(t[1..])
  }

  predicate IsClass(key: string) {
    ToLower(key) == "class"
  }

  /** The effect of one attribute: class values add up, all others replace. */
  function Apply(result: map<string, string>, a: Attribute): map<string, string> {
    if IsClass(a.key) then result[a.key := (if a.key in result then result[a.key] + " " else "") + a.val]
    else result[a.key := a.val]
  }

  function ApplyAll(attrs: seq<Attribute>): map<string, string> {
    if attrs == [] then map[] else Apply(ApplyAll(attrs[..|attrs| - 1]), attrs[|attrs| - 1])
  }

  function Flatten(lists: seq<seq<Attribute>>): seq<Attribute> {
    if lists == [] then [] else Flatten(lists[..|lists| - 1]) + lists[|lists| - 1]
  }

  /** The values given for a key, in order. */
  function ValuesOf(attrs: seq<Attribute>, key: string): seq<string> {
    if attrs == [] then []
    else
      var n := |attrs| - 1;
      ValuesOf(attrs[..n], key) + if attrs[n].key == key then [attrs[n].val] else []
  }

  lemma {:induction false} JoinSnoc(parts: seq<string>, last: string, sep: char)
    requires parts != []
    ensures Join(parts + [last], sep) == Join(parts, sep) + [sep] + last
  {
    if |parts| == 1 {
      assert (parts + [last])[1..] == [last];
    } else {
      assert (parts + [last])[1..] == parts[1..] + [last];
      JoinSnoc(parts[1..], last, sep);
    }
  }

  /** The merged attributes: all values of class joined by blanks, the last value of every other attribute. */
  lemma {:induction false} MergedAttributes(attrs: seq<Attribute>, key: string)
    ensures var values := ValuesOf(attrs, key);
            && (key in ApplyAll(attrs) <==> values != [])
            && (values != [] ==> ApplyAll(attrs)[key] == if IsClass(key) then Join(values, ' ') else values[|values| - 1])
  {
    if attrs != [] {
      var n := |attrs| - 1;
      var before, val := ValuesOf(attrs[..n], key), attrs[n].val;
      MergedAttributes(attrs[..n], key);
      if attrs[n].key != key {
        assert ValuesOf(attrs, key) == before;
      } else {
        assert ValuesOf(attrs, key) == before + [val];
        if before == [] {
          assert before + [val] == [val] && "" + val == val;
        } else {
          JoinSnoc(before, val, ' ');
          assert Join(before, ' ') + " " + val == Join(before, ' ') + [' '] + val;
        }
      }
    }
  }

  /** The attributes as text, in one of the orders in which Go may iterate over them. */
  function AttributeText(attrs: map<string, string>, order: seq<string>): string
    requires forall key :: key in order ==> key in attrs
  {
    if order == [] then ""
    else
      var n := |order| - 1;
      AttributeText(attrs, order[..n]) + " " + order[n] + "=\"" + attrs[order[n]] + "\""
  }

  ghost predicate IsOrderOf<T>(order: seq<string>, m: map<string, T>) {
    && (forall key :: key in order <==> key in m)
    && (forall i, j :: 0 <= i < j < |order| ==> order[i] != order[j])
  }

  /** Every attribute is listed exactly once. */
  ghost predicate ListsAll(text: string, attrs: map<string, string>) {
    exists order :: IsOrderOf(order, attrs) && text == AttributeText(attrs, order)
  }

  ghost predicate IsAttributeText(text: string, bodyAttrs: seq<seq<Attribute>>) {
    ListsAll(text, ApplyAll(Flatten(bodyAttrs)))
  }

  /** after is the index with the page entered in one of the orders in which Go may iterate over its body. */
  ghost predicate IsEntered<T>(before: map<string, T>, page: string, body: map<string, T>, after: map<string, T>) {
    exists order :: IsOrderOf(order, body) && after == EnterAll(before, page, body, order)
  }

  method CollectBodyAttrs(bodyAttrs: seq<seq<Attribute>>) returns (text: string)
    ensures IsAttributeText(text, bodyAttrs)
  {
    var result := map[];
    var i := 0;
    while i < |bodyAttrs|
      invariant 0 <= i <= |bodyAttrs|
      invariant result == ApplyAll(Flatten(bodyAttrs[..i]))
    {
      result := MergeAttributes(result, bodyAttrs[i], Flatten(bodyAttrs[..i]));
      assert bodyAttrs[..i + 1][..i] == bodyAttrs[..i];
      i := i + 1;
    }
    assert bodyAttrs[..i] == bodyAttrs;
    text := WriteAttributes(result);
  }

  /** The attributes of one page are merged into those of the pages before. */
  method MergeAttributes(before: map<string, string>, attrs: seq<Attribute>, ghost earlier: seq<Attribute>) returns (result: map<string, string>)
    requires before == ApplyAll(earlier)
    ensures result == ApplyAll(earlier + attrs)
  {
    result := before;
    assert earlier + attrs[..0] == earlier;
    var j := 0;
    while j < |attrs|
      invariant 0 <= j <= |attrs|
      invariant result == ApplyAll(earlier + attrs[..j])
    {
      var a := attrs[j];
      ApplyAllSnoc(earlier, attrs, j);
      if IsClass(a.key) {
        var newVal := if a.key in result then result[a.key] + " " else "";
        result := result[a.key := newVal + a.val];
      } else {
        result := result[a.key := a.val];
      }
      j := j + 1;
    }
    assert attrs[..j] == attrs;
  }

  lemma ApplyAllSnoc(earlier: seq<Attribute>, attrs: seq<Attribute>, j: nat)
    requires j < |attrs|
    ensures ApplyAll(earlier + attrs[..j + 1]) == Apply(ApplyAll(earlier + attrs[..j]), attrs[j])
  {
    var all := earlier + attrs[..j + 1];
    assert all[..|all| - 1] == earlier + attrs[..j];
  }

  method WriteAttributes(attrs: map<string, string>) returns (text: string)
    ensures ListsAll(text, attrs)
  {
    text := "";
    ghost var order := [];
    var keys := attrs.Keys;
    while keys != {}
      invariant keys <= attrs.Keys
      invariant forall key :: key in order <==> key in attrs && key !in keys
      invariant forall a, b :: 0 <= a < b < |order| ==> order[a] != order[b]
      invariant text == AttributeText(attrs, order)
      decreases keys
    {
      var k :| k in keys;
      text := text + " " + k + "=\"" + attrs[k] + "\"";
      assert (order + [k])[..|order|] == order;
      order := order + [k];
      keys := keys - {k};
    }
    assert IsOrderOf(order, attrs);
  }

  // ------------------------------------------------------------------------------------- stylesheets

  function Links(sheets: seq<Stylesheet>, escape: string -> string): string {
    if sheets == [] then ""
    else
      var n := |sheets| - 1;
      Links(sheets[..n], escape) + "\n    <link " + JoinAttrs(sheets[n], escape) + ">"
  }

  // ------------------------------------------------------------------------------------ the whole page

  /** Heads or tails one after the other. */
  function UnfoldAll(index: Index, env: Env, ghost rank: string -> nat, fragments: seq<Fragment>): Unfolding
    requires Ranked(index, rank)
  {
    if fragments == [] then Plain("")
    else
      var n := |fragments| - 1;
      var before := UnfoldAll(index, env, rank, fragments[..n]);
      if before.reply.Ok? then before.Before(UnfoldFragment(index, env, rank, fragments[n])) else before
  }

  function StartFragmentName(index: Index): string {
    if Resolve(index, LAYOUT_FRAGMENT_NAME).Some? then LAYOUT_FRAGMENT_NAME else ""
  }

  function UnfoldBody(index: Index, env: Env, ghost rank: string -> nat, tails: seq<Fragment>): Unfolding
    requires Ranked(index, rank)
  {
    var start := Unfold(index, env, rank, StartFragmentName(index));
    if start.reply.Ok? then start.Before(UnfoldAll(index, env, rank, tails)) else start
  }

  /** The page made of these parts. */
  function Document(headText: string, links: string, attributes: string, bodyText: string): string {
    DOCUMENT_START + headText + links + HEAD_END + (BODY_START + attributes + BODY_START_END + bodyText + DOCUMENT_END)
  }

  /** What rendering returns, and the stylesheets collected in the course of it. */
  datatype Rendered = Rendered(html: string, reply: Reply, sheets: seq<Stylesheet>)

  /** Heads first, then the body with the tails; the collected stylesheets, without repetitions, are linked in the head.
      The text of a page that fails is not looked at. */
  ghost function RenderedPage(index: Index, env: Env, rank: string -> nat, heads: seq<Fragment>, tails: seq<Fragment>,
                              attributes: string, collected: seq<Stylesheet>, strategy: Strategy, escape: string -> string): Rendered
    requires Ranked(index, rank)
  {
    var head := UnfoldAll(index, env, rank, heads);
    if !head.reply.Ok? then Rendered("", head.reply, collected + head.sheets)
    else
      var body := UnfoldBody(index, env, rank, tails);
      var all := collected + head.sheets + body.sheets;
      if !body.reply.Ok? then Rendered("", body.reply, all)
      else
        var kept := Deduplicated(strategy, all);
        Rendered(Document(head.out, Links(kept, escape), attributes, body.out), Ok, kept)
  }

  /** The page with its body attributes in one of the orders in which Go may iterate over them. */
  ghost predicate IsRenderedPage(page: Rendered, index: Index, env: Env, rank: string -> nat, heads: seq<Fragment>, tails: seq<Fragment>,
                                 bodyAttrs: seq<seq<Attribute>>, collected: seq<Stylesheet>, strategy: Strategy, escape: string -> string)
    requires Ranked(index, rank)
  {
    exists attributes ::
      IsAttributeText(attributes, bodyAttrs) && page == RenderedPage(index, env, rank, heads, tails, attributes, collected, strategy, escape)
  }

  function Values(fragments: seq<StringFragment>): seq<Fragment>
    reads fragments
  {
    seq(|fragments|, i requires 0 <= i < |fragments| reads fragments => fragments[i].Value())
  }

  function Texts(fragments: seq<StringFragment>): seq<string>
    reads fragments
  {
    seq(|fragments|, i requires 0 <= i < |fragments| reads fragments => fragments[i].content)
  }

  lemma EnterAllSnoc<T>(index: map<string, T>, page: string, body: map<string, T>, order: seq<string>, local: string)
    requires (forall l :: l in order ==> l in body) && local in body
    ensures EnterAll(index, page, body, order + [local]) == Enter(EnterAll(index, page, body, order), page, local, body[local])
    ensures FullKey(page, local) == if local == "" then page else page + (FRAGMENT_SEPARATOR + local)
  {
    assert (order + [local])[..|order|] == order;
    assert page + FRAGMENT_SEPARATOR + local == page + (FRAGMENT_SEPARATOR + local);
  }

  /** The value of a fragment when these objects have these texts. */
  ghost function ValueWith(f: StringFragment, texts: map<StringFragment, string>): Fragment
    reads f
  {
    Fragment(if f in texts then texts[f] else f.content, f.stylesheets)
  }

  ghost function IndexWith(body: map<string, StringFragment>, texts: map<StringFragment, string>): Index
    reads body.Values
  {
    map key | key in body :: ValueWith(body[key], texts)
  }

  lemma DistinctTexts(heads: seq<StringFragment>, before: map<StringFragment, string>, tokenize: string -> seq<Token>)
    requires (forall h :: h in heads ==> h in before) && Distinct(heads)
    requires Contents(heads) == AfterPass(heads, before, map[], tokenize)
    ensures Texts(heads) == DedupTexts(TextsIn(heads, before), map[], tokenize).0
  {
    forall k: nat | k < |heads| ensures heads[k].content == DedupTexts(TextsIn(heads, before), map[], tokenize).0[k] {
      DistinctPass(heads, before, map[], tokenize, k);
      assert Contents(heads)[heads[k]] == heads[k].content;
    }
  }

  class ContentMerge {
    const metaJSON: map<string, Value>
    var heads: seq<StringFragment>
    var bodyAttrsArray: seq<seq<Attribute>>
    var body: map<string, StringFragment>
    var tails: seq<StringFragment>
    var priorities: map<MemoryContent, int>
    var stylesheets: seq<Stylesheet>
    var strategy: Strategy
    /** The bodies added so far. */
    ghost var pages: seq<PageBody<StringFragment>>

    constructor (meta: map<string, Value>)
      ensures metaJSON == meta && heads == [] && bodyAttrsArray == [] && body == map[] && tails == []
      ensures priorities == map[] && stylesheets == [] && strategy == Unset && pages == [] && Valid()
    {
      metaJSON, heads, bodyAttrsArray, body, tails := meta, [], [], map[], [];
      priorities, stylesheets, strategy, pages := map[], [], Unset, [];
      new;
      assert OrdersOf([], pages) && EnterPages(pages, []) == body;
    }

    /** The index holds what was added, each page in some order of iteration. */
    ghost predicate Valid()
      reads `body, `pages
    {
      BuiltFrom(body, pages)
    }

    ghost predicate ProperNames()
      reads `pages
    {
      forall p :: p in pages ==> ProperName(p.name)
    }

    method SetDeduplicationStrategy(s: Strategy)
      modifies this`strategy
      ensures strategy == s
    {
      strategy := s;
    }

    function BodyIndex(): Index
      reads `body, body.Values
    {
      map key | key in body :: body[key].Value()
    }

    /** The texts of the heads that rendering begins with: the backward pass takes place only if some page was added with a
        priority. */
    ghost function TextsToRender(tokenize: string -> seq<Token>): map<StringFragment, string>
      reads `heads, `priorities, heads`content
    {
      if priorities == map[] then Contents(heads) else AfterPass(heads, Contents(heads), map[], tokenize)
    }

    method AddContent(c: MemoryContent, priority: int)
      requires Valid()
      modifies this
      ensures Valid()
      ensures heads == old(heads) + (if c.head.Some? then [c.head.value] else [])
      ensures tails == old(tails) + (if c.tail.Some? then [c.tail.value] else [])
      ensures bodyAttrsArray == old(bodyAttrsArray) + (if c.bodyAttributes != [] then [c.bodyAttributes] else [])
      ensures pages == old(pages) + [PageBody(c.name, c.body)]
      ensures IsEntered(old(body), c.name, c.body, body)
      ensures priorities == if priority > 0 then old(priorities)[c := priority] else old(priorities)
      ensures stylesheets == old(stylesheets) && strategy == old(strategy)
    {
      AddHead(c.head);
      AddBodyAttributesArray(c.bodyAttributes);
      AddBody(c);
      AddTail(c.tail);
      if priority > 0 {
        priorities := priorities[c := priority];
      }
    }

    method AddHead(f: Option<StringFragment>)
      modifies `heads
      ensures heads == old(heads) + (if f.Some? then [f.value] else [])
    {
      if f.Some? {
        heads := heads + [f.value];
      }
    }

    method AddBodyAttributesArray(a: seq<Attribute>)
      modifies `bodyAttrsArray
      ensures bodyAttrsArray == old(bodyAttrsArray) + (if a != [] then [a] else [])
    {
      if a != [] {
        bodyAttrsArray := bodyAttrsArray + [a];
      }
    }

    method AddTail(f: Option<StringFragment>)
      modifies `tails
      ensures tails == old(tails) + (if f.Some? then [f.value] else [])
    {
      if f.Some? {
        tails := tails + [f.value];
      }
    }

    method AddBody(c: MemoryContent)
      requires Valid()
      modifies `body, `pages
      ensures Valid() && pages == old(pages) + [PageBody(c.name, c.body)]
      ensures IsEntered(old(body), c.name, c.body, body)
    {
      ghost var order := [];
      var locals := c.body.Keys;
      while locals != {}
        invariant locals <= c.body.Keys
        invariant forall local :: local in order <==> local in c.body && local !in locals
        invariant forall a, b :: 0 <= a < b < |order| ==> order[a] != order[b]
        invariant body == EnterAll(old(body), c.name, c.body, order)
        invariant pages == old(pages)
        decreases locals
      {
        var localName :| localName in locals;
        var f := c.body[localName];
        EnterAllSnoc(old(body), c.name, c.body, order, localName);
        body := body[FRAGMENT_SEPARATOR + localName := f];
        var fqn := c.name;
        if localName != "" {
          fqn := fqn + (FRAGMENT_SEPARATOR + localName);
        }
        body := body[fqn := f];
        locals := locals - {localName};
        order := order + [localName];
      }
      assert IsOrderOf(order, c.body);
      BuiltFromSnoc(old(body), pages, PageBody(c.name, c.body), order);
      pages := pages + [PageBody(c.name, c.body)];
    }

    /** The backward pass rewrites the head objects, wherever they are held, and nothing else. */
    method ProcessMetaPriorityParsing(tokenize: string -> seq<Token>)
      modifies heads`content
      ensures Contents(heads) == AfterPass(heads, old(Contents(heads)), map[], tokenize)
      ensures Distinct(heads) ==> Texts(heads) == DedupTexts(old(Texts(heads)), map[], tokenize).0
    {
      ghost var before := Contents(heads);
      RewriteHeads(heads, tokenize);
      assert TextsIn(heads, before) == old(Texts(heads));
      if Distinct(heads) { DistinctTexts(heads, before, tokenize); }
    }

    method DeduplicateHeads(tokenize: string -> seq<Token>)
      modifies heads`content
      ensures Contents(heads) == old(TextsToRender(tokenize))
      ensures BodyIndex() == old(IndexWith(body, TextsToRender(tokenize)))
    {
      ghost var texts := TextsToRender(tokenize);
      if priorities != map[] {
        ProcessMetaPriorityParsing(tokenize);
      }
      forall key | key in body ensures body[key].Value() == old(ValueWith(body[key], texts)) {
        if body[key] in heads { assert Contents(heads)[body[key]] == body[key].content; }
      }
    }

    /** The page as it unfolds from the contents left by the backward pass, with the body attributes in some order. Where a head
        is also a body fragment or a tail, it has the text left by the pass there as well. */
    method GetHtml(tokenize: string -> seq<Token>, format: Value -> string, escape: string -> string, ghost rank: string -> nat)
      returns (html: string, reply: Reply)
      requires Ranked(IndexWith(body, TextsToRender(tokenize)), rank)
      modifies this`stylesheets, heads`content
      ensures Contents(heads) == old(TextsToRender(tokenize))
      ensures BodyIndex() == old(IndexWith(body, TextsToRender(tokenize)))
      ensures IsRenderedPage(Rendered(html, reply, stylesheets), BodyIndex(), Env(Some(metaJSON), format), rank, Values(heads),
                             Values(tails), bodyAttrsArray, old(stylesheets), strategy, escape)
    {
      DeduplicateHeads(tokenize);
      html, reply := RenderPage(format, escape, rank);
    }

    method RenderPage(format: Value -> string, escape: string -> string, ghost rank: string -> nat)
      returns (html: string, reply: Reply)
      requires Ranked(BodyIndex(), rank)
      modifies `stylesheets
      ensures IsRenderedPage(Rendered(html, reply, stylesheets), BodyIndex(), Env(Some(metaJSON), format), rank, Values(heads),
                             Values(tails), bodyAttrsArray, old(stylesheets), strategy, escape)
    {
      var env, before, collected := Env(Some(metaJSON), format), stylesheets, [];
      html, reply, collected :=
        Render(BodyIndex(), env, rank, Values(heads), Values(tails), bodyAttrsArray, before, strategy, escape);
      stylesheets := collected;
    }

    /** So does the renderer, which works on the fragments' values. */
    lemma BodyIndexIsSearch(name: string)
      requires Valid() && ProperNames()
      ensures Resolve(BodyIndex(), name) == match Search(pages, name) case None => None case Some(f) => Some(f.Value())
    {
      ResolveIsSearch(body, pages, name);
    }

    /** After any pages with proper names, the look-up finds what a search through them finds, latest first. */
    method GetBodyFragmentByName(name: string) returns (f: StringFragment?, found: bool)
      ensures found <==> Resolve(body, name).Some?
      ensures found ==> f == Resolve(body, name).value
      ensures Valid() && ProperNames() ==> if found then Search(pages, name) == Some(f) else Search(pages, name) == None
    {
      if Valid() && ProperNames() { ResolveIsSearch(body, pages, name); }
      SeparatorContained(name);
      f, found := null, name in body;
      if found {
        f := body[name];
      }
      if !found && HasSuffix(name, FRAGMENT_SEPARATOR) {
        var short := name[..|name| - 1];
        found := short in body;
        if found {
          f := body[short];
        }
      }
      if !found && !Contains(name, FRAGMENT_SEPARATOR) {
        found := FRAGMENT_SEPARATOR + name in body;
        if found {
          f := body[FRAGMENT_SEPARATOR + name];
        }
      }
    }
  }

  /** The rest of GetHtml, on the fragments' values. */
  method Render(index: Index, env: Env, ghost rank: string -> nat, heads: seq<Fragment>, tails: seq<Fragment>,
                bodyAttrs: seq<seq<Attribute>>, collected: seq<Stylesheet>, strategy: Strategy, escape: string -> string)
    returns (html: string, reply: Reply, stylesheets: seq<Stylesheet>)
    requires Ranked(index, rank)
    ensures IsRenderedPage(Rendered(html, reply, stylesheets), index, env, rank, heads, tails, bodyAttrs, collected, strategy, escape)
  {
    var attrs := CollectBodyAttrs(bodyAttrs);
    html := "";

    var header := Page(DOCUMENT_START, collected);
    header, reply := ExecuteAll(index, env, rank, heads, header);
    stylesheets := header.sheets;
    if !reply.Ok? {
      return;
    }

    var buffer := Page(BODY_START + attrs + BODY_START_END, stylesheets);
    buffer, reply := ExecuteBody(index, env, rank, tails, buffer);
    stylesheets := buffer.sheets;
    if !reply.Ok? {
      return;
    }

    var links;
    links, stylesheets := WriteStylesheets(stylesheets, strategy, escape);
    html := header.out + links + HEAD_END + (buffer.out + DOCUMENT_END);
  }

  /** The body: the layout fragment, or the default fragment, with everything it includes, and the tails. */
  method ExecuteBody(index: Index, env: Env, ghost rank: string -> nat, tails: seq<Fragment>, initial: Page)
    returns (page: Page, reply: Reply)
    requires Ranked(index, rank)
    ensures (page, reply) == UnfoldBody(index, env, rank, tails).On(initial)
  {
    var startFragmentName := "";
    if Resolve(index, LAYOUT_FRAGMENT_NAME).Some? {
      startFragmentName := LAYOUT_FRAGMENT_NAME;
    }
    ExecuteFragmentUnfolds(index, env, rank, startFragmentName, initial);
    var (page', reply') := ExecuteFragment(index, env, rank, startFragmentName, initial);
    page, reply := page', reply';
    if reply.Ok? {
      page, reply := ExecuteAll(index, env, rank, tails, page);
      OnBefore(Unfold(index, env, rank, startFragmentName), UnfoldAll(index, env, rank, tails), initial);
    }
  }

  /** Repeated stylesheets are dropped for good, and the others linked. */
  method WriteStylesheets(collected: seq<Stylesheet>, strategy: Strategy, escape: string -> string)
    returns (text: string, stylesheets: seq<Stylesheet>)
    ensures stylesheets == Deduplicated(strategy, collected)
    ensures text == Links(stylesheets, escape)
  {
    stylesheets := collected;
    if strategy == Simple {
      stylesheets := Deduplicate(stylesheets);
    }
    text := "";
    var i := 0;
    while i < |stylesheets|
      invariant 0 <= i <= |stylesheets|
      invariant text == Links(stylesheets[..i], escape)
    {
      assert stylesheets[..i + 1][..i] == stylesheets[..i];
      text := text + "\n    <link " + JoinAttrs(stylesheets[i], escape) + ">";
      i := i + 1;
    }
    assert stylesheets[..i] == stylesheets;
  }

  /** Executing heads or tails, on a page that also holds the collected stylesheets. */
  method ExecuteAll(index: Index, env: Env, ghost rank: string -> nat, fragments: seq<Fragment>, initial: Page)
    returns (page: Page, reply: Reply)
    requires Ranked(index, rank)
    ensures (page, reply) == UnfoldAll(index, env, rank, fragments).On(initial)
  {
    page, reply := initial, Ok;
    assert initial.out + "" == initial.out && initial.sheets + [] == initial.sheets;
    var i := 0;
    while i < |fragments|
      invariant 0 <= i <= |fragments|
      invariant reply.Ok?
      invariant (page, reply) == UnfoldAll(index, env, rank, fragments[..i]).On(initial)
    {
      ghost var before := UnfoldAll(index, env, rank, fragments[..i]);
      assert fragments[..i + 1][..i] == fragments[..i];
      OnBefore(before, UnfoldFragment(index, env, rank, fragments[i]), initial);
      page, reply := ExecuteOne(index, env, rank, fragments[i], page);
      i := i + 1;
      if !reply.Ok? {
        UnfoldingStops(index, env, rank, fragments, i);
        return;
      }
    }
    assert fragments[..i] == fragments;
  }

  method ExecuteOne(index: Index, env: Env, ghost rank: string -> nat, f: Fragment, initial: Page) returns (page: Page, reply: Reply)
    requires Ranked(index, rank)
    ensures (page, reply) == UnfoldFragment(index, env, rank, f).On(initial)
  {
    FragmentUnfolds(index, env, rank, f, initial);
    page := CollectStylesheets(initial, f);
    forall p: Page ensures WriteTo(p, "") == p { assert p.out + "" == p.out; }
    page, reply := ExecuteTemplate(f.content, env, (p: Page, text: string) => WriteTo(p, text),
                                   (callee: string, p: Page) => ExecuteFragment(index, env, rank, callee, p), page);
  }

  lemma {:induction false} UnfoldingStops(index: Index, env: Env, rank: string -> nat, fragments: seq<Fragment>, i: nat)
    requires Ranked(index, rank) && i <= |fragments| && !UnfoldAll(index, env, rank, fragments[..i]).reply.Ok?
    ensures UnfoldAll(index, env, rank, fragments) == UnfoldAll(index, env, rank, fragments[..i])
  {
    var n := |fragments| - 1;
    if i <= n {
      assert fragments[..n][..i] == fragments[..i];
      UnfoldingStops(index, env, rank, fragments[..n], i);
    } else {
      assert fragments[..i] == fragments;
    }
  }
}
