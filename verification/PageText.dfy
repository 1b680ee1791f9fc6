/** Where the parts of a rendered page stand, with the literal text between them. */
module PageText {
  import opened Strings
  import opened Html
  import opened Templating
  import opened Includes
  import opened TemplatingSyntax
  import opened FragmentIndex
  import opened StylesheetDeduplication
  import opened Rendering
  import opened ContentMerge

  // --------------------------------------------------------------------------------- one behind the other

  function Concat(parts: seq<string>): string {
    if parts == [] then "" else parts[0] + Concat(parts[1..])
  }

  lemma {:induction false} ConcatSnoc(parts: seq<string>, last: string)
    ensures Concat(parts + [last]) == Concat(parts) + last
  {
    if parts == [] {
      assert parts + [last] == [last] && [last][1..] == [];
    } else {
      assert (parts + [last])[1..] == parts[1..] + [last];
      ConcatSnoc(parts[1..], last);
      Regroup(parts[0], Concat(parts[1..]), last);
    }
  }

  /** From this position on the text consists of these parts, one directly behind the other, and ends with the last one. */
  ghost predicate LaidOut(text: string, parts: seq<string>, pos: int)
    decreases |parts|
  {
    if parts == [] then pos == |text| else At(text, parts[0], pos) && LaidOut(text, parts[1..], pos + |parts[0]|)
  }

  lemma {:induction false} ConcatLaidOut(front: string, parts: seq<string>)
    ensures LaidOut(front + Concat(parts), parts, |front|)
    decreases |parts|
  {
    if parts != [] {
      Regroup(front, parts[0], Concat(parts[1..]));
      ConcatLaidOut(front + parts[0], parts[1..]);
    } else {
      assert front + "" == front;
    }
  }

  // ------------------------------------------------------------------------------- heads, tails and links

  function OutputOf(index: Index, env: Env, ghost rank: string -> nat, f: Fragment): string
    requires Ranked(index, rank)
  {
    UnfoldFragment(index, env, rank, f).out
  }

  function Outputs(index: Index, env: Env, ghost rank: string -> nat, fragments: seq<Fragment>): seq<string>
    requires Ranked(index, rank)
  {
    seq(|fragments|, i requires 0 <= i < |fragments| => OutputOf(index, env, rank, fragments[i]))
  }

  lemma OutputsSnoc(index: Index, env: Env, rank: string -> nat, fragments: seq<Fragment>)
    requires Ranked(index, rank) && fragments != []
    ensures var n := |fragments| - 1;
            Outputs(index, env, rank, fragments) == Outputs(index, env, rank, fragments[..n]) + [OutputOf(index, env, rank, fragments[n])]
  {
  }

  /** Heads or tails that succeed write what each of them writes. */
  lemma {:induction false} AllOutputs(index: Index, env: Env, rank: string -> nat, fragments: seq<Fragment>)
    requires Ranked(index, rank) && UnfoldAll(index, env, rank, fragments).reply.Ok?
    ensures UnfoldAll(index, env, rank, fragments).out == Concat(Outputs(index, env, rank, fragments))
  {
    if fragments != [] {
      var n := |fragments| - 1;
      AllOutputs(index, env, rank, fragments[..n]);
      OutputsSnoc(index, env, rank, fragments);
      ConcatSnoc(Outputs(index, env, rank, fragments[..n]), OutputOf(index, env, rank, fragments[n]));
    }
  }

  /** One attribute of a link. */
  function Piece(a: Attribute, escape: string -> string): string {
    (if a.namespace == "" then "" else a.namespace + ":") + a.key + "=\"" + escape(a.val) + "\""
  }

  function Pieces(attrs: seq<Attribute>, escape: string -> string): seq<string> {
    seq(|attrs|, i requires 0 <= i < |attrs| => Piece(attrs[i], escape))
  }

  lemma {:induction false} AttributesJoined(attrs: seq<Attribute>, escape: string -> string)
    requires attrs != []
    ensures JoinAttrs(attrs, escape) == Join(Pieces(attrs, escape), ' ')
  {
    if |attrs| > 1 {
      assert Pieces(attrs, escape)[1..] == Pieces(attrs[1..], escape);
      AttributesJoined(attrs[1..], escape);
    }
  }

  function LinkText(sheet: Stylesheet, escape: string -> string): string {
    "\n    <link " + (if sheet == [] then "" else Join(Pieces(sheet, escape), ' ')) + ">"
  }

  function LinkTexts(sheets: seq<Stylesheet>, escape: string -> string): seq<string> {
    seq(|sheets|, i requires 0 <= i < |sheets| => LinkText(sheets[i], escape))
  }

  lemma LinkWritten(before: string, sheet: Stylesheet, escape: string -> string)
    ensures before + "\n    <link " + JoinAttrs(sheet, escape) + ">" == before + LinkText(sheet, escape)
  {
    if sheet != [] { AttributesJoined(sheet, escape); }
    Regroup(before, "\n    <link ", JoinAttrs(sheet, escape));
    Regroup(before, "\n    <link " + JoinAttrs(sheet, escape), ">");
  }

  lemma {:induction false} LinksWritten(sheets: seq<Stylesheet>, escape: string -> string)
    ensures Links(sheets, escape) == Concat(LinkTexts(sheets, escape))
  {
    if sheets != [] {
      var n := |sheets| - 1;
      LinksWritten(sheets[..n], escape);
      assert LinkTexts(sheets, escape) == LinkTexts(sheets[..n], escape) + [LinkText(sheets[n], escape)];
      ConcatSnoc(LinkTexts(sheets[..n], escape), LinkText(sheets[n], escape));
      LinkWritten(Links(sheets[..n], escape), sheets[n], escape);
    }
  }

  function AttributeTexts(attrs: map<string, string>, order: seq<string>): seq<string>
    requires forall key :: key in order ==> key in attrs
  {
    seq(|order|, i requires 0 <= i < |order| => " " + order[i] + "=\"" + attrs[order[i]] + "\"")
  }

  lemma {:induction false} AttributesWritten(attrs: map<string, string>, order: seq<string>)
    requires forall key :: key in order ==> key in attrs
    ensures AttributeText(attrs, order) == Concat(AttributeTexts(attrs, order))
  {
    if order != [] {
      var n := |order| - 1;
      AttributesWritten(attrs, order[..n]);
      assert AttributeTexts(attrs, order) == AttributeTexts(attrs, order[..n]) + [AttributeTexts(attrs, order)[n]];
      ConcatSnoc(AttributeTexts(attrs, order[..n]), AttributeTexts(attrs, order)[n]);
    }
  }

  // ------------------------------------------------------------------------------------------- the page

  /** The layout fragment if there is one, and otherwise the default fragment. */
  ghost predicate IsStart(index: Index, name: string) {
    (name == "layout" && Resolve(index, "layout").Some?) || (name == "" && Resolve(index, "layout").None?)
  }

  /** The text of a page that succeeds, from its first to its last character: the document type, what the heads write, the links to the
      stylesheets, the body tag with its attributes, what the start fragment writes, what the tails write, and the end tags. */
  lemma RenderedText(page: Rendered, index: Index, env: Env, rank: string -> nat, heads: seq<Fragment>, tails: seq<Fragment>,
                     bodyAttrs: seq<seq<Attribute>>, collected: seq<Stylesheet>, strategy: Strategy, escape: string -> string)
    returns (start: string, attributes: string)
    requires Ranked(index, rank) && IsRenderedPage(page, index, env, rank, heads, tails, bodyAttrs, collected, strategy, escape)
    requires page.reply.Ok?
    ensures IsStart(index, start) && IsAttributeText(attributes, bodyAttrs)
    ensures LaidOut(page.html, ["<!DOCTYPE html>\n<html>\n  <head>\n    ",
                                Concat(Outputs(index, env, rank, heads)),
                                Concat(LinkTexts(page.sheets, escape)),
                                "\n  </head>\n  <body", attributes, ">\n    ",
                                Unfold(index, env, rank, start).out,
                                Concat(Outputs(index, env, rank, tails)),
                                "\n  </body>\n</html>\n"], 0)
  {
    start := StartFragmentName(index);
    attributes :| IsAttributeText(attributes, bodyAttrs)
                  && page == RenderedPage(index, env, rank, heads, tails, attributes, collected, strategy, escape);
    AllOutputs(index, env, rank, heads);
    AllOutputs(index, env, rank, tails);
    LinksWritten(page.sheets, escape);
    DocumentLaidOut(Concat(Outputs(index, env, rank, heads)), Concat(LinkTexts(page.sheets, escape)), attributes,
                    Unfold(index, env, rank, start).out, Concat(Outputs(index, env, rank, tails)));
  }

  lemma DocumentLaidOut(head: string, links: string, attributes: string, body: string, tail: string)
    ensures LaidOut(Document(head, links, attributes, body + tail),
                    ["<!DOCTYPE html>\n<html>\n  <head>\n    ", head, links, "\n  </head>\n  <body", attributes, ">\n    ", body, tail,
                     "\n  </body>\n</html>\n"], 0)
  {
    var first, middle, last := "<!DOCTYPE html>\n<html>\n  <head>\n    ", "\n  </head>\n  <body", "\n  </body>\n</html>\n";
    var parts := [first, head, links, middle, attributes, ">\n    ", body, tail, last];
    ConcatLaidOut("", parts);
    ConcatNine(first, head, links, middle, attributes, ">\n    ", body, tail, last);
    assert middle == HEAD_END + BODY_START;
    NineRegrouped(first, head, links, HEAD_END, BODY_START, attributes, ">\n    ", body, tail, last);
    assert "" + Concat(parts) == Concat(parts);
  }

  lemma ConcatCons(first: string, rest: seq<string>)
    ensures Concat([first] + rest) == first + Concat(rest)
  {
    assert ([first] + rest)[1..] == rest;
  }

  lemma ConcatNine(a: string, b: string, c: string, d: string, e: string, f: string, g: string, h: string, i: string)
    ensures Concat([a, b, c, d, e, f, g, h, i]) == a + (b + (c + (d + (e + (f + (g + (h + i)))))))
  {
    ConcatCons(a, [b, c, d, e, f, g, h, i]);
    ConcatCons(b, [c, d, e, f, g, h, i]);
    ConcatCons(c, [d, e, f, g, h, i]);
    ConcatCons(d, [e, f, g, h, i]);
    ConcatCons(e, [f, g, h, i]);
    ConcatCons(f, [g, h, i]);
    ConcatCons(g, [h, i]);
    ConcatCons(h, [i]);
    ConcatCons(i, []);
    assert [i] + [] == [i] && i + "" == i;
    assert [a] + [b, c, d, e, f, g, h, i] == [a, b, c, d, e, f, g, h, i];
    assert [b] + [c, d, e, f, g, h, i] == [b, c, d, e, f, g, h, i];
    assert [c] + [d, e, f, g, h, i] == [c, d, e, f, g, h, i];
    assert [d] + [e, f, g, h, i] == [d, e, f, g, h, i];
    assert [e] + [f, g, h, i] == [e, f, g, h, i];
    assert [f] + [g, h, i] == [f, g, h, i] && [g] + [h, i] == [g, h, i] && [h] + [i] == [h, i];
  }

  lemma NineRegrouped(a: string, b: string, c: string, d: string, d': string, e: string, f: string, g: string, h: string, i: string)
    ensures a + b + c + d + (d' + e + f + (g + h) + i) == a + (b + (c + ((d + d') + (e + (f + (g + (h + i)))))))
  {
    var body := e + (f + (g + (h + i)));
    assert d' + e + f + (g + h) + i == d' + body;
    Regroup(d, d', body);
    Regroup(a + b, c, d + (d' + body));
    Regroup(a + b + c, d, d' + body);
    Regroup(a, b, c + (d + (d' + body)));
  }

  /** The attributes of the body tag, each with its merged value. */
  lemma AttributesListed(text: string, bodyAttrs: seq<seq<Attribute>>) returns (order: seq<string>)
    requires IsAttributeText(text, bodyAttrs)
    ensures IsOrderOf(order, ApplyAll(Flatten(bodyAttrs))) && text == Concat(AttributeTexts(ApplyAll(Flatten(bodyAttrs)), order))
  {
    order :| IsOrderOf(order, ApplyAll(Flatten(bodyAttrs))) && text == AttributeText(ApplyAll(Flatten(bodyAttrs)), order);
    AttributesWritten(ApplyAll(Flatten(bodyAttrs)), order);
  }

  /** The values given for an attribute by several pages, page by page. */
  lemma {:induction false} ValuesOfPages(front: seq<seq<Attribute>>, page: seq<Attribute>, key: string)
    ensures ValuesOf(Flatten(front + [page]), key) == ValuesOf(Flatten(front), key) + ValuesOf(page, key)
  {
    assert (front + [page])[..|front|] == front;
    ValuesOfBoth(Flatten(front), page, key);
  }

  lemma {:induction false} ValuesOfBoth(a: seq<Attribute>, b: seq<Attribute>, key: string)
    ensures ValuesOf(a + b, key) == ValuesOf(a, key) + ValuesOf(b, key)
  {
    if b == [] {
      assert a + b == a;
    } else {
      assert (a + b)[..|a + b| - 1] == a + b[..|b| - 1];
      ValuesOfBoth(a, b[..|b| - 1], key);
    }
  }

  lemma PlainTree(text: string, env: Env, unfold: string --> Unfolding)
    requires !Contains(text, "\U{A7}[")
    ensures Calls(Parse(text)) == {} && UnfoldTree(text, Parse(text), env, unfold) == Plain(text)
  {
    if text == "" {
      assert UnfoldTree(text, End(Complete), env, unfold) == Plain("");
    } else {
      assert Parse(text) == Then(Literal(text), End(Complete));
      assert UnfoldTree(text, End(Complete), env, unfold) == Plain("");
      assert text + "" == text;
    }
  }

  lemma OwnSheets(f: Fragment)
    ensures Unfolding("", f.stylesheets, Ok).Before(Plain(f.content)) == Unfolding(f.content, f.stylesheets, Ok)
  {
    assert "" + f.content == f.content && f.stylesheets + [] == f.stylesheets;
  }

  /** A fragment without a start marker in it is copied. */
  lemma PlainOutput(index: Index, env: Env, rank: string -> nat, f: Fragment)
    requires Ranked(index, rank) && !Contains(f.content, "\U{A7}[")
    ensures UnfoldFragment(index, env, rank, f) == Unfolding(f.content, f.stylesheets, Ok)
  {
    PlainTree(f.content, env, callee => Unfold(index, env, rank, callee));
    OwnSheets(f);
  }

  /** The same for a fragment that is called. */
  lemma PlainCall(index: Index, env: Env, rank: string -> nat, name: string)
    requires Ranked(index, rank) && Resolve(index, name).Some? && !Contains(Resolve(index, name).value.content, "\U{A7}[")
    ensures var f := Resolve(index, name).value; Unfold(index, env, rank, name) == Unfolding(f.content, f.stylesheets, Ok)
  {
    var f := Resolve(index, name).value;
    var callees := Calls(TreeOf(f));
    PlainTree(f.content, env, callee requires callee in callees => Unfold(index, env, rank, callee));
    OwnSheets(f);
  }

  lemma IncludeUnfolds(index: Index, env: Env, rank: string -> nat, name: string, required: bool, sheets: seq<Stylesheet>)
    requires Ranked(index, rank) && Expressible(name)
    ensures var u := Unfold(index, env, rank, name);
            UnfoldFragment(index, env, rank, Fragment(IncludeText(name, required), sheets))
            == Unfolding(u.out, sheets + u.sheets, if u.reply.Failed? && !required then Ok else u.reply)
  {
    var text, node := IncludeText(name, required), IncludeNode(name, required);
    var unfold := callee => Unfold(index, env, rank, callee);
    OnlyInclude(name, required);
    IncludeNodeCalls(name, required);
    UnfoldOne(text, node, env, unfold);
    var u := UnfoldNode(node, env, unfold);
    assert "" + u.out == u.out && unfold(name).out + "" == unfold(name).out;
  }

  lemma UnfoldOne(text: string, node: Node, env: Env, unfold: string -> Unfolding)
    ensures UnfoldTree(text, Then(node, End(Complete)), env, unfold) == UnfoldNode(node, env, unfold)
  {
    var u := UnfoldNode(node, env, unfold);
    assert UnfoldTree(text, End(Complete), env, unfold) == Unfolding("", [], Ok);
    assert u.out + "" == u.out && u.sheets + [] == u.sheets;
  }

  /** A required include of a missing fragment is the error that names it; an optional one is nothing. */
  lemma MissingIsNamed(index: Index, env: Env, rank: string -> nat, name: string, sheets: seq<Stylesheet>)
    requires Ranked(index, rank) && Resolve(index, name).None? && Expressible(name)
    ensures UnfoldFragment(index, env, rank, Fragment("\U{A7}[> " + name + "]\U{A7}", sheets))
         == Unfolding("", sheets, Failed(FragmentMissing(name)))
    ensures UnfoldFragment(index, env, rank, Fragment("\U{A7}[#> " + name + "]\U{A7}\U{A7}[/" + name + "]\U{A7}", sheets))
         == Unfolding("", sheets, Ok)
  {
    IncludeSpelled(name);
    IncludeUnfolds(index, env, rank, name, true, sheets);
    IncludeUnfolds(index, env, rank, name, false, sheets);
    assert sheets + [] == sheets;
  }

  lemma IncludeSpelled(name: string)
    ensures IncludeText(name, true) == "\U{A7}[> " + name + "]\U{A7}"
    ensures IncludeText(name, false) == "\U{A7}[#> " + name + "]\U{A7}\U{A7}[/" + name + "]\U{A7}"
  {
    var t, e := "\U{A7}[/", name + "]\U{A7}";
    assert t + e == "\U{A7}[/" + name + "]\U{A7}";
  }

  lemma OnlyInclude(name: string, required: bool)
    requires Expressible(name)
    ensures Parse(IncludeText(name, required)) == Then(IncludeNode(name, required), End(Complete))
  {
    IncludeNodeCalls(name, required);
    ParsePrintedNode(IncludeNode(name, required), "");
    assert PrintNode(IncludeNode(name, required)) + "" == IncludeText(name, required);
  }

  /** Without any fragment to start with the page is an error. */
  lemma NothingToStartWith(index: Index, env: Env, rank: string -> nat, heads: seq<Fragment>, tails: seq<Fragment>,
                           attributes: string, collected: seq<Stylesheet>, strategy: Strategy, escape: string -> string)
    requires Ranked(index, rank) && Resolve(index, "layout").None? && Resolve(index, "").None?
    requires forall f :: f in heads ==> !Contains(f.content, "\U{A7}[")
    ensures RenderedPage(index, env, rank, heads, tails, attributes, collected, strategy, escape).reply == Failed(FragmentMissing(""))
  {
    PlainHeads(index, env, rank, heads);
  }

  lemma {:induction false} PlainHeads(index: Index, env: Env, rank: string -> nat, heads: seq<Fragment>)
    requires Ranked(index, rank) && forall f :: f in heads ==> !Contains(f.content, "\U{A7}[")
    ensures UnfoldAll(index, env, rank, heads).reply.Ok?
  {
    if heads != [] {
      var n := |heads| - 1;
      assert heads[n] in heads;
      PlainHeads(index, env, rank, heads[..n]);
      PlainOutput(index, env, rank, heads[n]);
    }
  }

  /** The name of the class attribute in any case. */
  lemma ClassInAnyCase(key: string)
    ensures IsClass(key) <==>
            |key| == 5 && key[0] in "cC" && key[1] in "lL" && key[2] in "aA" && key[3] in "sS" && key[4] in "sS"
  {
    LowerLength(key);
    if |key| == 5 {
      LowerAt(key, 0);
      LowerAt(key, 1);
      LowerAt(key, 2);
      LowerAt(key, 3);
      LowerAt(key, 4);
      var lower := ToLower(key);
      assert IsClass(key) <==> lower[0] == 'c' && lower[1] == 'l' && lower[2] == 'a' && lower[3] == 's' && lower[4] == 's';
    }
  }

  lemma {:induction false} LowerLength(t: string)
    ensures |ToLower(t)| == |t|
  {
    if t != "" { LowerLength(t[1..]); }
  }

  lemma {:induction false} LowerAt(t: string, i: nat)
    requires i < |t|
    ensures |ToLower(t)| == |t| && ToLower(t)[i] == LowerChar(t[i])
  {
    LowerLength(t);
    if i > 0 {
      LowerAt(t[1..], i - 1);
      assert ToLower(t) == [LowerChar(t[0])] + ToLower(t[1..]);
    }
  }
}
