/** What a page holds once its body is parsed: the content of its fragments and tail, what it depends on and what it requires. Of
    several elements with one name the last one in the document counts. */
module BodyParts {
  import opened Wrappers
  import opened Strings
  import opened Html
  import opened Templating
  import opened Rendering
  import opened Includes
  import opened Fragments
  import opened HtmlContentParser
  import opened TreePruning
  import opened PlacedIncludes

  function Or<T>(first: Option<T>, second: Option<T>): Option<T> {
    if first.Some? then first else second
  }

  /** Tags marked to be left out, and links to stylesheets, by their attributes. */
  predicate IsGone(t: Token) {
    IsOpenTag(t) && GetAttr(t.attrs, "uic-remove").Some?
  }

  predicate IsSheet(t: Token) {
    IsNamed(t, "link") && GetAttr(t.attrs, "rel").Some? && GetAttr(t.attrs, "rel").value.val == "stylesheet"
  }

  function At<T>(m: map<string, T>, key: string): Option<T> {
    if key in m then Some(m[key]) else None
  }

  // --------------------------------------------------------------------------------- fragments and tails

  function NameOf(t: Token): string
    requires IsOpenTag(t)
  {
    match GetAttr(t.attrs, "name") case None => "" case Some(a) => a.val
  }

  /** The content of the last fragment of this name. */
  function LastFragment(f: Forest, name: string): Option<Forest> {
    match f
    case Nil => None
    case Leaf(_, next) => LastFragment(next, name)
    case Element(start, children, _, next) =>
      Or(LastFragment(next, name),
         if IsGone(start) || IsNamed(start, "uic-tail") then None
         else if IsNamed(start, "uic-fragment") then (if NameOf(start) == name then Some(children) else None)
         else LastFragment(children, name))
  }

  /** The content of the last tail. */
  function LastTail(f: Forest): Option<Forest> {
    match f
    case Nil => None
    case Leaf(_, next) => LastTail(next)
    case Element(start, children, _, next) =>
      Or(LastTail(next),
         if IsGone(start) || IsNamed(start, "uic-fragment") then None
         else if IsNamed(start, "uic-tail") then Some(children)
         else LastTail(children))
  }

  /** The stylesheet links of a fragment's content, in the order of the document. */
  function SheetsOfContent(f: Forest): seq<Stylesheet> {
    match f
    case Nil => []
    case Leaf(t, next) => (if IsSheet(t) && !IsGone(t) then [t.attrs] else []) + SheetsOfContent(next)
    case Element(start, children, _, next) =>
      (if IsGone(start) && !IsNamed(start, "uic-include") then []
       else (if IsSheet(start) then [start.attrs] else []) + SheetsOfContent(children))
      + SheetsOfContent(next)
  }

  /** A fragment with this content. */
  function ContentOf(f: Forest, env: Foreign): Fragment {
    Fragment(TextOf(FragmentPieces(f), env.fprintf), SheetsOfContent(f))
  }

  lemma SheetsRejoined(a: seq<Stylesheet>, b: seq<Stylesheet>, c: seq<Stylesheet>, d: seq<Stylesheet>)
    ensures a + b + c + d == a + ((b + c) + d)
  {
  }

  lemma TagSheets(t: Token, acc: FragmentAcc, env: Foreign)
    requires FragmentToken(t, acc, env).1.None?
    ensures FragmentToken(t, acc, env).0.sheets == acc.sheets + if IsSheet(t) && !IsGone(t) then [t.attrs] else []
  {
    assert acc.sheets + [] == acc.sheets;
  }

  lemma {:induction false} ContentSheets(f: Forest, acc: FragmentAcc, env: Foreign)
    requires WellNested(f) && FragmentEffect(f, acc, env).1.None?
    ensures FragmentEffect(f, acc, env).0.sheets == acc.sheets + SheetsOfContent(f)
  {
    match f {
      case Nil =>
      case Leaf(t, next) =>
        var acc' := FragmentToken(t, acc, env).0;
        TagSheets(t, acc, env);
        ContentSheets(next, acc', env);
        SheetsRegrouped(acc.sheets, if IsSheet(t) && !IsGone(t) then [t.attrs] else [], SheetsOfContent(next));
      case Element(start, children, end, next) =>
        if IsGone(start) && !IsNamed(start, "uic-include") {
          ContentSheets(next, acc, env);
          assert [] + SheetsOfContent(next) == SheetsOfContent(next);
        } else {
          var acc1 := FragmentToken(start, acc, env).0;
          var acc2 := FragmentEffect(children, acc1, env).0;
          TagSheets(start, acc, env);
          ContentSheets(children, acc1, env);
          ContentSheets(next, acc2.(out := acc2.out + end.raw), env);
          assert !IsSheet(start);
          SheetsRejoined(acc.sheets, [], SheetsOfContent(children), SheetsOfContent(next));
        }
    }
  }

  lemma ContentWritten(f: Forest, env: Foreign)
    requires WellNested(f) && FragmentEffect(f, FragmentAcc("", [], map[]), env).1.None?
    ensures var o := FragmentEffect(f, FragmentAcc("", [], map[]), env).0; Fragment(o.out, o.sheets) == ContentOf(f, env)
  {
    var o := FragmentEffect(f, FragmentAcc("", [], map[]), env).0;
    FragmentWritten(f, FragmentAcc("", [], map[]), env);
    ContentSheets(f, FragmentAcc("", [], map[]), env);
    assert "" + TextOf(FragmentPieces(f), env.fprintf) == TextOf(FragmentPieces(f), env.fprintf);
    assert [] + SheetsOfContent(f) == SheetsOfContent(f);
  }

  /** What the page holds under a name. */
  function Held(content: Option<Forest>, before: Option<Fragment>, env: Foreign): Option<Fragment> {
    match content case Some(f) => Some(ContentOf(f, env)) case None => before
  }

  lemma AddedHolds(start: Token, children: Forest, acc: BodyAcc, env: Foreign, name: string)
    requires StartsFragment(start) && WellNested(children) && AddedFragment(start, children, acc, env).1.None?
    ensures var page := AddedFragment(start, children, acc, env).0.page;
            && At(page.body, name) == Held(if IsNamed(start, "uic-fragment") && NameOf(start) == name then Some(children) else None,
                                           At(acc.page.body, name), env)
            && page.tail == Held(if IsNamed(start, "uic-tail") then Some(children) else None, acc.page.tail, env)
  {
    ContentWritten(children, env);
  }

  /** After a well-nested body without error, every name of a fragment holds the text and the stylesheets of the last fragment of that
      name, and the tail those of the last tail; everything else is as before. */
  lemma {:induction false} BodyHolds(f: Forest, acc: BodyAcc, env: Foreign, name: string)
    requires WellNested(f) && BodyContent(f) && BodyEffect(f, acc, env).1.None?
    ensures At(BodyEffect(f, acc, env).0.page.body, name) == Held(LastFragment(f, name), At(acc.page.body, name), env)
    ensures BodyEffect(f, acc, env).0.page.tail == Held(LastTail(f), acc.page.tail, env)
  {
    match f {
      case Nil =>
      case Leaf(t, next) =>
        if IsGone(t) {
          BodyHolds(next, acc, env, name);
        } else {
          BodyHolds(next, TagInBody(t, acc, env).0, env, name);
        }
      case Element(start, children, end, next) =>
        if IsGone(start) {
          BodyHolds(next, acc, env, name);
        } else if StartsFragment(start) {
          AddedHolds(start, children, acc, env, name);
          BodyHolds(next, AddedFragment(start, children, acc, env).0, env, name);
        } else {
          var acc1 := TagInBody(start, acc, env).0;
          var acc2 := BodyEffect(children, acc1, env).0;
          BodyHolds(children, acc1, env, name);
          BodyHolds(next, acc2.(out := acc2.out + end.raw), env, name);
        }
    }
  }

  // ------------------------------------------------------------------------------------- dependencies

  function BaseOf(attrs: seq<Attribute>): string {
    Split(SourceIn(attrs), '#')[0]
  }

  function IncludeOf(t: Token, base: string): Option<seq<Attribute>> {
    if IsNamed(t, "uic-include") && BaseOf(t.attrs) == base then Some(t.attrs) else None
  }

  /** The last include of this base name in the content of a fragment. */
  function LastIncludeIn(f: Forest, base: string): Option<seq<Attribute>> {
    match f
    case Nil => None
    case Leaf(t, next) => Or(LastIncludeIn(next, base), IncludeOf(t, base))
    case Element(start, children, _, next) =>
      Or(LastIncludeIn(next, base),
         if IsGone(start) && !IsNamed(start, "uic-include") then None
         else Or(LastIncludeIn(children, base), IncludeOf(start, base)))
  }

  /** The last include of this base name in the body, in its fragments or outside. */
  function LastInclude(f: Forest, base: string): Option<seq<Attribute>> {
    match f
    case Nil => None
    case Leaf(t, next) => Or(LastInclude(next, base), if IsGone(t) then None else IncludeOf(t, base))
    case Element(start, children, _, next) =>
      Or(LastInclude(next, base),
         if IsGone(start) then None
         else if IsNamed(start, "uic-fragment") || IsNamed(start, "uic-tail") then LastIncludeIn(children, base)
         else Or(LastInclude(children, base), IncludeOf(start, base)))
  }

  /** The parameters a page hands on with a dependency. */
  function Handed(tag: Option<seq<Attribute>>, before: Option<Params>): Option<Params> {
    match tag case Some(attrs) => Some(ParamsOf(attrs)) case None => before
  }

  lemma {:induction false} ContentHands(f: Forest, acc: FragmentAcc, env: Foreign, base: string)
    requires FragmentEffect(f, acc, env).1.None?
    ensures At(FragmentEffect(f, acc, env).0.dependencies, base) == Handed(LastIncludeIn(f, base), At(acc.dependencies, base))
  {
    match f {
      case Nil =>
      case Leaf(t, next) =>
        ContentTagHands(t, acc, env, base);
        ContentHands(next, FragmentToken(t, acc, env).0, env, base);
      case Element(start, children, end, next) =>
        if IsGone(start) && !IsNamed(start, "uic-include") {
          ContentHands(next, acc, env, base);
        } else {
          var acc1 := FragmentToken(start, acc, env).0;
          var acc2 := FragmentEffect(children, acc1, env).0;
          ContentTagHands(start, acc, env, base);
          ContentHands(children, acc1, env, base);
          ContentHands(next, acc2.(out := acc2.out + end.raw), env, base);
        }
    }
  }

  lemma ContentTagHands(t: Token, acc: FragmentAcc, env: Foreign, base: string)
    requires FragmentToken(t, acc, env).1.None?
    ensures At(FragmentToken(t, acc, env).0.dependencies, base) == Handed(IncludeOf(t, base), At(acc.dependencies, base))
  {
  }

  lemma TagHands(t: Token, acc: BodyAcc, env: Foreign, base: string)
    requires TagInBody(t, acc, env).1.None?
    ensures At(TagInBody(t, acc, env).0.page.dependencies, base) == Handed(IncludeOf(t, base), At(acc.page.dependencies, base))
  {
  }

  lemma AddedHands(start: Token, children: Forest, acc: BodyAcc, env: Foreign, base: string)
    requires StartsFragment(start) && AddedFragment(start, children, acc, env).1.None?
    ensures At(AddedFragment(start, children, acc, env).0.page.dependencies, base)
         == Handed(LastIncludeIn(children, base), At(acc.page.dependencies, base))
  {
    ContentHands(children, FragmentAcc("", [], map[]), env, base);
  }

  /** With every base name a page depends on, it hands on the parameters of the last include of that name. */
  lemma {:induction false} BodyHands(f: Forest, acc: BodyAcc, env: Foreign, base: string)
    requires BodyContent(f) && BodyEffect(f, acc, env).1.None?
    ensures At(BodyEffect(f, acc, env).0.page.dependencies, base) == Handed(LastInclude(f, base), At(acc.page.dependencies, base))
  {
    match f {
      case Nil =>
      case Leaf(t, next) =>
        if IsGone(t) {
          BodyHands(next, acc, env, base);
        } else {
          TagHands(t, acc, env, base);
          BodyHands(next, TagInBody(t, acc, env).0, env, base);
        }
      case Element(start, children, end, next) =>
        if IsGone(start) {
          BodyHands(next, acc, env, base);
        } else if StartsFragment(start) {
          AddedHands(start, children, acc, env, base);
          BodyHands(next, AddedFragment(start, children, acc, env).0, env, base);
        } else {
          var acc1 := TagInBody(start, acc, env).0;
          var acc2 := BodyEffect(children, acc1, env).0;
          TagHands(start, acc, env, base);
          BodyHands(children, acc1, env, base);
          BodyHands(next, acc2.(out := acc2.out + end.raw), env, base);
        }
    }
  }

  /** A parameter has the value of the last attribute of its name, behind the prefix. */
  lemma {:induction false} ParamsExactly(attrs: seq<Attribute>, key: string)
    ensures key !in ParamsOf(attrs) ==> forall i :: 0 <= i < |attrs| ==> attrs[i].key != "param-" + key
    ensures key in ParamsOf(attrs) ==> exists i :: 0 <= i < |attrs| && IsLastParam(attrs, key, i) && ParamsOf(attrs)[key] == attrs[i].val
  {
    if attrs != [] {
      var n := |attrs| - 1;
      var front, last := attrs[..n], attrs[n];
      ParamsExactly(front, key);
      KeyBehindPrefix(last.key, key);
      if last.key == "param-" + key {
        assert IsLastParam(attrs, key, n);
      } else if key in ParamsOf(front) {
        var i :| 0 <= i < |front| && IsLastParam(front, key, i) && ParamsOf(front)[key] == front[i].val;
        assert IsLastParam(attrs, key, i);
      }
    }
  }

  ghost predicate IsLastParam(attrs: seq<Attribute>, key: string, i: nat)
    requires i < |attrs|
  {
    attrs[i].key == "param-" + key && forall j :: i < j < |attrs| ==> attrs[j].key != "param-" + key
  }

  lemma KeyBehindPrefix(attrKey: string, key: string)
    ensures attrKey == "param-" + key <==> HasPrefix(attrKey, PARAM_ATTR_PREFIX) && attrKey[|PARAM_ATTR_PREFIX|..] == key
  {
    if HasPrefix(attrKey, "param-") { assert attrKey == "param-" + attrKey[6..]; }
  }

  // ---------------------------------------------------------------------------------- required contents

  /** The definition that a fetch tag makes: the name is the URL if none is given, the timeout is in milliseconds, and nothing is
      required unless the tag says so. */
  ghost predicate Defines(attrs: seq<Attribute>, fetch: Fetch, env: Foreign) {
    var src, name, timeout, required := GetAttr(attrs, "src"), GetAttr(attrs, "name"), GetAttr(attrs, "timeout"), GetAttr(attrs, "required");
    && src.Some? && fetch.url == TrimSpace(src.value.val)
    && fetch.name == (if name.Some? then name.value.val else UrlToName(fetch.url))
    && (if timeout.Some? then env.atoi(timeout.value.val) == Some(fetch.timeout) else fetch.timeout == 0)
    && (if required.Some? then ParseBool(required.value.val) == Some(fetch.required) else !fetch.required)
    && (match GetAttr(attrs, "discoveredby") case None => fetch.discoveredBy == None case Some(a) => fetch.discoveredBy == Some(a.val))
  }

  function UrlOf(t: Token): Option<string> {
    if !IsNamed(t, "uic-fetch") then None
    else match GetAttr(t.attrs, "src") case None => None case Some(a) => Some(TrimSpace(a.val))
  }

  function FetchOf(t: Token, url: string): Option<seq<Attribute>> {
    if UrlOf(t) == Some(url) then Some(t.attrs) else None
  }

  /** The last fetch tag of this URL outside fragments, where alone they count. */
  function LastFetch(f: Forest, url: string): Option<seq<Attribute>> {
    match f
    case Nil => None
    case Leaf(t, next) => Or(LastFetch(next, url), if IsGone(t) then None else FetchOf(t, url))
    case Element(start, children, _, next) =>
      Or(LastFetch(next, url),
         if IsGone(start) || IsNamed(start, "uic-fragment") || IsNamed(start, "uic-tail") then None
         else Or(LastFetch(children, url), FetchOf(start, url)))
  }

  ghost predicate Required(tag: Option<seq<Attribute>>, after: Option<Fetch>, before: Option<Fetch>, env: Foreign) {
    match tag
    case None => after == before
    case Some(attrs) => after.Some? && Defines(attrs, after.value, env)
  }

  lemma TagRequires(t: Token, acc: BodyAcc, env: Foreign, url: string)
    requires TagInBody(t, acc, env).1.None?
    ensures Required(FetchOf(t, url), At(TagInBody(t, acc, env).0.page.requiredContent, url), At(acc.page.requiredContent, url), env)
  {
  }

  /** For every URL named by a fetch tag the page requires what the last of these tags defines. */
  lemma {:induction false} BodyRequires(f: Forest, acc: BodyAcc, env: Foreign, url: string)
    requires BodyContent(f) && BodyEffect(f, acc, env).1.None?
    ensures Required(LastFetch(f, url), At(BodyEffect(f, acc, env).0.page.requiredContent, url), At(acc.page.requiredContent, url), env)
  {
    match f {
      case Nil =>
      case Leaf(t, next) =>
        if IsGone(t) {
          BodyRequires(next, acc, env, url);
        } else {
          TagRequires(t, acc, env, url);
          BodyRequires(next, TagInBody(t, acc, env).0, env, url);
        }
      case Element(start, children, end, next) =>
        if IsGone(start) {
          BodyRequires(next, acc, env, url);
        } else if StartsFragment(start) {
          BodyRequires(next, AddedFragment(start, children, acc, env).0, env, url);
        } else {
          var acc1 := TagInBody(start, acc, env).0;
          var acc2 := BodyEffect(children, acc1, env).0;
          TagRequires(start, acc, env, url);
          BodyRequires(children, acc1, env, url);
          BodyRequires(next, acc2.(out := acc2.out + end.raw), env, url);
        }
    }
  }

  // --------------------------------------------------------------------------------------------- errors

  /** The first include in the content of a fragment that is refused. */
  function RefusedInFragment(f: Forest): Option<ParseError> {
    match f
    case Nil => None
    case Leaf(t, next) => Or(RefusedInclude(t), RefusedInFragment(next))
    case Element(start, children, _, next) =>
      Or(if IsGone(start) && !IsNamed(start, "uic-include") then None else Or(RefusedInclude(start), RefusedInFragment(children)),
         RefusedInFragment(next))
  }

  function RefusedInclude(t: Token): Option<ParseError> {
    if IsNamed(t, "uic-include") && GetInclude(t.attrs).Refused? then Some(IncludeRefused(GetInclude(t.attrs).error)) else None
  }

  function RefusedTag(t: Token, env: Foreign): Option<ParseError> {
    if IsNamed(t, "uic-fetch") && GetFetch(t.attrs, env).FetchRefused? then Some(GetFetch(t.attrs, env).error) else RefusedInclude(t)
  }

  /** The first include or fetch tag of the body that is refused, in its fragments or outside. */
  function Refused(f: Forest, env: Foreign): Option<ParseError> {
    match f
    case Nil => None
    case Leaf(t, next) => Or(if IsGone(t) then None else RefusedTag(t, env), Refused(next, env))
    case Element(start, children, _, next) =>
      Or(if IsGone(start) then None
         else if IsNamed(start, "uic-fragment") || IsNamed(start, "uic-tail") then RefusedInFragment(children)
         else Or(RefusedTag(start, env), Refused(children, env)),
         Refused(next, env))
  }

  lemma {:induction false} FragmentRefused(f: Forest, acc: FragmentAcc, env: Foreign)
    ensures FragmentEffect(f, acc, env).1 == RefusedInFragment(f)
  {
    match f {
      case Nil =>
      case Leaf(t, next) => FragmentRefused(next, FragmentToken(t, acc, env).0, env);
      case Element(start, children, end, next) =>
        if IsGone(start) && !IsNamed(start, "uic-include") {
          FragmentRefused(next, acc, env);
        } else {
          var acc1 := FragmentToken(start, acc, env).0;
          var acc2 := FragmentEffect(children, acc1, env).0;
          FragmentRefused(children, acc1, env);
          FragmentRefused(next, acc2.(out := acc2.out + end.raw), env);
        }
    }
  }

  lemma TagRefused(t: Token, acc: BodyAcc, env: Foreign)
    ensures TagInBody(t, acc, env).1 == RefusedTag(t, env)
  {
  }

  /** A body is an error exactly if one of its tags is refused, and then it is the error of the first one. */
  lemma {:induction false} BodyRefused(f: Forest, acc: BodyAcc, env: Foreign)
    ensures BodyEffect(f, acc, env).1 == Refused(f, env)
  {
    match f {
      case Nil =>
      case Leaf(t, next) =>
        if !IsGone(t) { TagRefused(t, acc, env); }
        BodyRefused(next, if IsGone(t) then acc else TagInBody(t, acc, env).0, env);
      case Element(start, children, end, next) =>
        if IsGone(start) {
          BodyRefused(next, acc, env);
        } else if StartsFragment(start) {
          FragmentRefused(children, FragmentAcc("", [], map[]), env);
          BodyRefused(next, AddedFragment(start, children, acc, env).0, env);
        } else {
          var acc1 := TagInBody(start, acc, env).0;
          var acc2 := BodyEffect(children, acc1, env).0;
          TagRefused(start, acc, env);
          BodyRefused(children, acc1, env);
          BodyRefused(next, acc2.(out := acc2.out + end.raw), env);
        }
    }
  }

  // ----------------------------------------------------------------------------------- default fragment

  /** The stylesheet links of the body outside its fragments, in the order of the document. */
  function SheetsOfBody(f: Forest): seq<Stylesheet> {
    match f
    case Nil => []
    case Leaf(t, next) => (if IsSheet(t) && !IsGone(t) then [t.attrs] else []) + SheetsOfBody(next)
    case Element(start, children, _, next) =>
      (if IsGone(start) || IsNamed(start, "uic-fragment") || IsNamed(start, "uic-tail") then [] else SheetsOfBody(children))
      + SheetsOfBody(next)
  }

  lemma {:induction false} BodySheets(f: Forest, acc: BodyAcc, env: Foreign)
    requires WellNested(f) && BodyContent(f) && BodyEffect(f, acc, env).1.None?
    ensures BodyEffect(f, acc, env).0.sheets == acc.sheets + SheetsOfBody(f)
  {
    match f {
      case Nil =>
      case Leaf(t, next) =>
        if IsGone(t) {
          BodySheets(next, acc, env);
          assert [] + SheetsOfBody(next) == SheetsOfBody(next);
        } else {
          BodySheets(next, TagInBody(t, acc, env).0, env);
          assert acc.sheets + [] == acc.sheets;
          SheetsRegrouped(acc.sheets, if IsSheet(t) then [t.attrs] else [], SheetsOfBody(next));
        }
      case Element(start, children, end, next) =>
        if IsGone(start) {
          BodySheets(next, acc, env);
          assert [] + SheetsOfBody(next) == SheetsOfBody(next);
        } else if StartsFragment(start) {
          BodySheets(next, AddedFragment(start, children, acc, env).0, env);
          assert [] + SheetsOfBody(next) == SheetsOfBody(next);
        } else {
          var acc1 := TagInBody(start, acc, env).0;
          var acc2 := BodyEffect(children, acc1, env).0;
          assert !IsSheet(start);
          BodySheets(children, acc1, env);
          BodySheets(next, acc2.(out := acc2.out + end.raw), env);
          SheetsRegrouped(acc.sheets, SheetsOfBody(children), SheetsOfBody(next));
        }
    }
  }

  /** What is left of the body becomes the default fragment, trimmed and with its stylesheets, unless a fragment without a name is in
      the body or nothing is left. */
  lemma DefaultHolds(f: Forest, page: PageParts, env: Foreign)
    requires WellNested(f) && BodyContent(f) && BodyEffect(f, BodyAcc(page, "", []), env).1.None?
    ensures var parts := WithDefaultFragment(BodyEffect(f, BodyAcc(page, "", []), env).0);
            var text := TrimBlanks(TextOf(BodyPieces(f), Verbatim));
            At(parts.body, "") ==
            if LastFragment(f, "").Some? || "" in page.body then Held(LastFragment(f, ""), At(page.body, ""), env)
            else if text == "" && SheetsOfBody(f) == [] then None
            else Some(Fragment(text, SheetsOfBody(f)))
  {
    BodyHolds(f, BodyAcc(page, "", []), env, "");
    BodyWritten(f, BodyAcc(page, "", []), env);
    BodySheets(f, BodyAcc(page, "", []), env);
    assert "" + TextOf(BodyPieces(f), Verbatim) == TextOf(BodyPieces(f), Verbatim);
    assert [] + SheetsOfBody(f) == SheetsOfBody(f);
  }

  /** All of it for a whole body as it is scanned: under every name, in the tail, for every base name and for every URL. */
  lemma ParsedBodyHolds(f: Forest, end: Token, ts: seq<Token>, failure: Option<string>, page: PageParts, env: Foreign, name: string)
    requires WellNested(f) && BodyContent(f) && IsEnd(end, "body")
    ensures BodyScan(Flatten(f) + ([end] + ts), failure, BodyAcc(page, "", []), env).error == Refused(f, env)
    ensures Refused(f, env) == None ==>
            var parts := WithDefaultFragment(BodyScan(Flatten(f) + ([end] + ts), failure, BodyAcc(page, "", []), env).acc);
            && (name != "" ==> At(parts.body, name) == Held(LastFragment(f, name), At(page.body, name), env))
            && parts.tail == Held(LastTail(f), page.tail, env)
            && At(parts.dependencies, name) == Handed(LastInclude(f, name), At(page.dependencies, name))
            && Required(LastFetch(f, name), At(parts.requiredContent, name), At(page.requiredContent, name), env)
  {
    BodyParsed(f, end, ts, failure, page, env);
    BodyRefused(f, BodyAcc(page, "", []), env);
    if Refused(f, env) == None {
      BodyHolds(f, BodyAcc(page, "", []), env, name);
      BodyHands(f, BodyAcc(page, "", []), env, name);
      BodyRequires(f, BodyAcc(page, "", []), env, name);
    }
  }
}
