/** Removing repeated title, meta and canonical tags from the heads of a page, last head first. */
module HeadDeduplication {
  import opened Wrappers
  import opened Html
  import opened Fragments

  /** Properties already set; a missing entry reads as the empty string. */
  type Properties = map<string, string>

  function Get(props: Properties, key: string): string {
    if key in props then props[key] else ""
  }

  // -------------------------------------------------------------------------------------------- one tag

  function MetaKey(attrs: seq<Attribute>): string
    requires attrs != []
  {
    if |attrs| == 1 then "meta_" + attrs[0].key else "meta_" + attrs[0].key + "_" + attrs[0].val
  }

  function MetaValue(attrs: seq<Attribute>): string
    requires attrs != []
  {
    if |attrs| == 1 then attrs[0].val else attrs[1].key + "_" + attrs[1].val
  }

  predicate IsCanonical(attrs: seq<Attribute>) {
    exists a :: a in attrs && a.key == "rel" && a.val == "canonical"
  }

  /** The value of the last href attribute. */
  function LastHref(attrs: seq<Attribute>): string {
    if attrs == [] then ""
    else if attrs[|attrs| - 1].key == "href" then attrs[|attrs| - 1].val
    else LastHref(attrs[..|attrs| - 1])
  }

  /** The property a tag stands for, if it is subject to removal. */
  function Property(t: Token): Option<(string, string)> {
    if IsNamed(t, "title") then Some(("title", "title"))
    else if IsNamed(t, "meta") && t.attrs != [] then Some((MetaKey(t.attrs), MetaValue(t.attrs)))
    else if IsNamed(t, "link") && IsCanonical(t.attrs) then Some(("canonical", LastHref(t.attrs)))
    else None
  }

  /** A tag whose property is already set goes; every other one stays and sets its property. */
  predicate Keeps(t: Token, props: Properties) {
    var p := Property(t);
    p.Some? ==> Get(props, p.value.0) == ""
  }

  function Set(t: Token, props: Properties): Properties {
    match Property(t)
    case None => props
    case Some((key, value)) => if value == "" && !IsNamed(t, "meta") then props else props[key := value]
  }

  method ProcessMetaTag(t: Token, props: Properties) returns (keep: bool, props': Properties)
    requires IsNamed(t, "meta")
    ensures keep == Keeps(t, props) && props' == if keep then Set(t, props) else props
  {
    var attrs := t.attrs;
    if |attrs| == 0 {
      return true, props;
    }
    var key, value := "meta", "";
    if |attrs| == 1 {
      key := "meta_" + attrs[0].key;
      value := attrs[0].val;
    }
    if |attrs| > 1 {
      key := "meta_" + attrs[0].key + "_" + attrs[0].val;
      value := attrs[1].key + "_" + attrs[1].val;
    }
    if Get(props, key) == "" {
      return true, props[key := value];
    }
    return false, props;
  }

  method ProcessLinkTag(t: Token, props: Properties) returns (keep: bool, props': Properties)
    requires IsNamed(t, "link")
    ensures keep == Keeps(t, props) && props' == if keep then Set(t, props) else props
  {
    var attrs := t.attrs;
    if |attrs| == 0 {
      return true, props;
    }
    var key, value := "", "";
    var i := 0;
    while i < |attrs|
      invariant 0 <= i <= |attrs|
      invariant key == if IsCanonical(attrs[..i]) then "canonical" else ""
      invariant value == LastHref(attrs[..i])
    {
      assert attrs[..i + 1] == attrs[..i] + [attrs[i]];
      if attrs[i].key == "rel" && attrs[i].val == "canonical" {
        key := "canonical";
      }
      if attrs[i].key == "href" {
        value := attrs[i].val;
      }
      i := i + 1;
    }
    assert attrs[..i] == attrs;
    if key == "canonical" && Get(props, "canonical") != "" {
      return false, props;
    }
    if key != "" && value != "" {
      return true, props[key := value];
    }
    return true, props;
  }

  // ------------------------------------------------------------------------------------------- one head

  /** The tokens behind the next end tag of a title. */
  function AfterTitle(tokens: seq<Token>): (rest: seq<Token>)
    ensures |rest| <= |tokens|
  {
    if tokens == [] then []
    else if tokens[0].EndTag? && tokens[0].name == "title" then tokens[1..]
    else AfterTitle(tokens[1..])
  }

  /** One scan over a head: the tokens kept and the properties afterwards. */
  function Scan(tokens: seq<Token>, props: Properties): (seq<Token>, Properties)
    decreases |tokens|
  {
    if tokens == [] then ([], props)
    else
      var t := tokens[0];
      if Keeps(t, props) then
        var (kept, props') := Scan(tokens[1..], Set(t, props));
        ([t] + kept, props')
      else if t.StartTag? && t.name == "title" then Scan(AfterTitle(tokens[1..]), props)
      else Scan(tokens[1..], props)
  }

  /** A head of which nothing would be left stays as it is. */
  function DedupHead(tokens: seq<Token>, props: Properties): (seq<Token>, Properties) {
    var (kept, props') := Scan(tokens, props);
    (if |Raw(kept)| > 0 then kept else tokens, props')
  }

  /** All heads, the last one first. */
  function DedupHeads(heads: seq<seq<Token>>, props: Properties): (r: (seq<seq<Token>>, Properties))
    ensures |r.0| == |heads|
  {
    if heads == [] then ([], props)
    else
      var n := |heads| - 1;
      var (last, props') := DedupHead(heads[n], props);
      var (others, props'') := DedupHeads(heads[..n], props');
      (others + [last], props'')
  }

  /** The same on texts: tokenize stands for html.NewTokenizer. */
  function DedupText(text: string, props: Properties, tokenize: string -> seq<Token>): (string, Properties) {
    var (kept, props') := Scan(tokenize(text), props);
    (if |Raw(kept)| > 0 then Raw(kept) else text, props')
  }

  function DedupTexts(texts: seq<string>, props: Properties, tokenize: string -> seq<Token>): (r: (seq<string>, Properties))
    ensures |r.0| == |texts|
  {
    if texts == [] then ([], props)
    else
      var n := |texts| - 1;
      var (last, props') := DedupText(texts[n], props, tokenize);
      var (others, props'') := DedupTexts(texts[..n], props', tokenize);
      (others + [last], props'')
  }

  /** One tag or text of a head: whether it stays, the properties afterwards, and the tokens behind it. */
  method ProcessHeadToken(t: Token, tokens: seq<Token>, props: Properties) returns (keep: bool, props': Properties, rest: seq<Token>)
    ensures keep == Keeps(t, props) && props' == if keep then Set(t, props) else props
    ensures rest == if !keep && t.StartTag? && t.name == "title" then AfterTitle(tokens) else tokens
  {
    keep, props', rest := true, props, tokens;
    if IsNamed(t, "meta") {
      keep, props' := ProcessMetaTag(t, props);
    } else if IsNamed(t, "link") {
      keep, props' := ProcessLinkTag(t, props);
    } else if IsNamed(t, "title") {
      if Get(props, "title") == "" {
        props' := props["title" := "title"];
      } else {
        keep := false;
        if t.StartTag? {
          rest := SkipCompleteTag(tokens);
        }
      }
    }
  }

  lemma ScanKeeps(kept: seq<Token>, t: Token, tokens: seq<Token>, props: Properties)
    requires Keeps(t, props)
    ensures var (more, props') := Scan(tokens, Set(t, props));
            && kept + Scan([t] + tokens, props).0 == (kept + [t]) + more && Scan([t] + tokens, props).1 == props'
    ensures Raw(kept + [t]) == Raw(kept) + t.raw
  {
    var (more, _) := Scan(tokens, Set(t, props));
    assert ([t] + tokens)[1..] == tokens;
    assert kept + ([t] + more) == (kept + [t]) + more;
    RawConcat(kept, [t]);
    assert Raw([t]) == t.raw + Raw([]);
  }

  /** The loop over the tokenizer. */
  method ParseHeadFragment(fragment: StringFragment, props: Properties, tokenize: string -> seq<Token>) returns (props': Properties)
    modifies fragment`content
    ensures (fragment.content, props') == DedupText(old(fragment.content), props, tokenize)
  {
    props' := props;
    var tokens := tokenize(fragment.content);
    ghost var all := tokens;
    var headBuff := "";
    ghost var kept := [];
    assert kept + Scan(tokens, props').0 == Scan(tokens, props').0;
    while |tokens| > 0
      invariant Scan(all, props) == (kept + Scan(tokens, props').0, Scan(tokens, props').1)
      invariant headBuff == Raw(kept) && fragment.content == old(fragment.content)
      decreases |tokens|
    {
      var t := tokens[0];
      ghost var behind, before := tokens[1..], props';
      assert tokens == [t] + behind;
      var keep;
      keep, props', tokens := ProcessHeadToken(t, tokens[1..], props');
      if keep {
        ScanKeeps(kept, t, behind, before);
        headBuff := headBuff + t.raw;
        kept := kept + [t];
      }
    }
    assert kept + [] == kept;
    assert Scan(all, props) == (kept, props');
    if |headBuff| > 0 {
      fragment.SetContent(headBuff);
    }
  }

  method SkipCompleteTag(tokens: seq<Token>) returns (rest: seq<Token>)
    ensures rest == AfterTitle(tokens)
  {
    rest := tokens;
    while |rest| > 0
      invariant AfterTitle(rest) == AfterTitle(tokens)
      decreases |rest|
    {
      var t := rest[0];
      rest := rest[1..];
      if t.EndTag? && t.name == "title" {
        return;
      }
    }
  }

  // ------------------------------------------------------------------------------------ heads as objects

  ghost predicate Distinct<T>(items: seq<T>) {
    forall i, j :: 0 <= i < j < |items| ==> items[i] != items[j]
  }

  ghost function Contents(heads: seq<StringFragment>): map<StringFragment, string>
    reads heads`content
  {
    map h | h in heads :: h.content
  }

  /** The contents after the backward pass; an object that occurs several times is rewritten every time. */
  ghost function AfterPass(heads: seq<StringFragment>, contents: map<StringFragment, string>, props: Properties,
                           tokenize: string -> seq<Token>): map<StringFragment, string>
    requires forall h :: h in heads ==> h in contents
  {
    if heads == [] then contents
    else
      var n := |heads| - 1;
      var (text, props') := DedupText(contents[heads[n]], props, tokenize);
      AfterPass(heads[..n], contents[heads[n] := text], props', tokenize)
  }

  method RewriteHeads(heads: seq<StringFragment>, tokenize: string -> seq<Token>)
    modifies heads`content
    ensures Contents(heads) == AfterPass(heads, old(Contents(heads)), map[], tokenize)
  {
    var headPropertyMap: Properties := map[];
    var i := |heads|;
    assert heads[..i] == heads;
    while i > 0
      invariant 0 <= i <= |heads|
      invariant AfterPass(heads, old(Contents(heads)), map[], tokenize) == AfterPass(heads[..i], Contents(heads), headPropertyMap, tokenize)
    {
      i := i - 1;
      ghost var before, props := Contents(heads), headPropertyMap;
      assert heads[..i + 1][..i] == heads[..i] && heads[..i + 1][i] == heads[i];
      headPropertyMap := ParseHeadFragment(heads[i], headPropertyMap, tokenize);
      RewrittenOne(heads, i, before);
    }
  }

  /** Only one object is rewritten, though it may be held several times. */
  lemma RewrittenOne(heads: seq<StringFragment>, i: nat, before: map<StringFragment, string>)
    requires i < |heads| && before.Keys == set h | h in heads
    requires forall h :: h in heads && h != heads[i] ==> h.content == before[h]
    ensures Contents(heads) == before[heads[i] := heads[i].content]
  {
  }

  ghost function TextsIn(heads: seq<StringFragment>, contents: map<StringFragment, string>): seq<string>
    requires forall h :: h in heads ==> h in contents
  {
    seq(|heads|, i requires 0 <= i < |heads| => contents[heads[i]])
  }

  lemma {:induction false} PassLeavesOthers(heads: seq<StringFragment>, contents: map<StringFragment, string>, props: Properties,
                                            tokenize: string -> seq<Token>, h: StringFragment)
    requires (forall x :: x in heads ==> x in contents) && h !in heads && h in contents
    ensures var after := AfterPass(heads, contents, props, tokenize); h in after && after[h] == contents[h]
  {
    if heads != [] {
      var n := |heads| - 1;
      var (text, props') := DedupText(contents[heads[n]], props, tokenize);
      PassLeavesOthers(heads[..n], contents[heads[n] := text], props', tokenize, h);
    }
  }

  /** If no object occurs twice the pass does to the contents what DedupTexts does to the texts. */
  lemma {:induction false} DistinctPass(heads: seq<StringFragment>, contents: map<StringFragment, string>, props: Properties,
                                        tokenize: string -> seq<Token>, k: nat)
    requires (forall h :: h in heads ==> h in contents) && Distinct(heads) && k < |heads|
    ensures var after := AfterPass(heads, contents, props, tokenize);
            heads[k] in after && after[heads[k]] == DedupTexts(TextsIn(heads, contents), props, tokenize).0[k]
  {
    var n := |heads| - 1;
    var front, last := heads[..n], heads[n];
    var (text, props') := DedupText(contents[last], props, tokenize);
    var changed := contents[last := text];
    assert last !in front;
    assert TextsIn(heads, contents)[..n] == TextsIn(front, changed);
    if k == n {
      PassLeavesOthers(front, changed, props', tokenize, last);
    } else {
      DistinctPass(front, changed, props', tokenize, k);
    }
  }
}
