/** Which heads the backward pass leaves alone, told from their tags, and what a second pass does. */
module HeadFixpoints {
  import opened Html
  import opened HeadDeduplication
  import opened HeadDeduplicationLaws

  /** Tokens cover the text they are read from, none of them is empty, and titles hold text only. */
  ghost predicate Reads(tokenize: string -> seq<Token>) {
    forall text :: Raw(tokenize(text)) == text && HasText(tokenize(text)) && WellTitled(tokenize(text))
  }

  // -------------------------------------------------------------------------------- heads left alone

  /** No removable tag repeats what a later head or an earlier tag of the same head claims. */
  ghost predicate NoRepeat(tokens: seq<Token>, later: seq<seq<Token>>) {
    forall i :: 0 <= i < |tokens| && Property(tokens[i]).Some? ==>
      var key := Property(tokens[i]).value.0;
      !ClaimedIn(later, key) && forall j :: 0 <= j < i ==> !Claims(tokens[j], key)
  }

  /** The same with the properties that later heads have set. */
  ghost predicate NoneSet(tokens: seq<Token>, props: Properties) {
    forall i :: 0 <= i < |tokens| && Property(tokens[i]).Some? ==>
      var key := Property(tokens[i]).value.0;
      Get(props, key) == "" && forall j :: 0 <= j < i ==> !Claims(tokens[j], key)
  }

  lemma NoneSetCons(t: Token, rest: seq<Token>, props: Properties)
    ensures NoneSet([t] + rest, props) <==> Keeps(t, props) && NoneSet(rest, Set(t, props))
  {
    var all := [t] + rest;
    assert all[0] == t && forall i :: 0 <= i < |rest| ==> all[i + 1] == rest[i];
    if NoneSet(all, props) {
      assert Keeps(t, props);
      forall i | 0 <= i < |rest| && Property(rest[i]).Some?
        ensures var key := Property(rest[i]).value.0; Get(Set(t, props), key) == "" && forall j :: 0 <= j < i ==> !Claims(rest[j], key)
      {
        assert Property(all[i + 1]).Some? && !Claims(all[0], Property(rest[i]).value.0);
        SetGet(t, props, Property(rest[i]).value.0);
        forall j | 0 <= j < i ensures !Claims(rest[j], Property(rest[i]).value.0) { assert !Claims(all[j + 1], Property(rest[i]).value.0); }
      }
    }
    if Keeps(t, props) && NoneSet(rest, Set(t, props)) {
      forall i | 0 <= i < |all| && Property(all[i]).Some?
        ensures var key := Property(all[i]).value.0; Get(props, key) == "" && forall j :: 0 <= j < i ==> !Claims(all[j], key)
      {
        if i > 0 {
          assert Property(rest[i - 1]).Some?;
          SetGet(t, props, Property(all[i]).value.0);
          forall j | 0 <= j < i ensures !Claims(all[j], Property(all[i]).value.0) {
            if j > 0 { assert !Claims(rest[j - 1], Property(all[i]).value.0); }
          }
        }
      }
    }
  }

  lemma {:induction false} AfterTitleLength(tokens: seq<Token>)
    ensures |Raw(AfterTitle(tokens))| <= |Raw(tokens)|
    ensures HasText(tokens) ==> HasText(AfterTitle(tokens))
  {
    if tokens != [] && !(tokens[0].EndTag? && tokens[0].name == "title") { AfterTitleLength(tokens[1..]); }
    AfterTitleIn(tokens);
  }

  /** A scan keeps all tokens or shortens the text. */
  lemma {:induction false} AllOrShorter(tokens: seq<Token>, props: Properties)
    requires HasText(tokens)
    ensures Scan(tokens, props).0 == tokens || |Raw(Scan(tokens, props).0)| < |Raw(tokens)|
    decreases |tokens|
  {
    if tokens != [] {
      var t, rest := tokens[0], tokens[1..];
      assert t in tokens && forall x :: x in rest ==> x in tokens;
      if Keeps(t, props) {
        AllOrShorter(rest, Set(t, props));
        assert Scan(tokens, props).0[1..] == Scan(rest, Set(t, props)).0;
        assert tokens == [t] + rest;
      } else if t.StartTag? && t.name == "title" {
        AfterTitleLength(rest);
        AllOrShorter(AfterTitle(rest), props);
      } else {
        AllOrShorter(rest, props);
      }
    }
  }

  lemma {:induction false} KeepsAllExactly(tokens: seq<Token>, props: Properties)
    requires HasText(tokens)
    ensures Scan(tokens, props).0 == tokens <==> NoneSet(tokens, props)
  {
    if tokens != [] {
      var t, rest := tokens[0], tokens[1..];
      assert forall x :: x in rest ==> x in tokens;
      assert tokens == [t] + rest;
      NoneSetCons(t, rest, props);
      if Keeps(t, props) {
        KeepsAllExactly(rest, Set(t, props));
        assert Scan(tokens, props).0[1..] == Scan(rest, Set(t, props)).0;
      } else {
        AllOrShorter(tokens, props);
        DropsFirst(t, rest, props);
      }
    }
  }

  lemma DropsFirst(t: Token, rest: seq<Token>, props: Properties)
    requires !Keeps(t, props) && HasText([t] + rest)
    ensures |Raw(Scan([t] + rest, props).0)| < |Raw([t] + rest)|
  {
    var all := [t] + rest;
    assert all[0] == t && all[1..] == rest && t in all && forall x :: x in rest ==> x in all;
    if t.StartTag? && t.name == "title" {
      AfterTitleLength(rest);
      AllOrShorter(AfterTitle(rest), props);
    } else {
      AllOrShorter(rest, props);
    }
  }

  lemma NoneSetIsNoRepeat(tokens: seq<Token>, props: Properties, later: seq<seq<Token>>)
    requires Records(props, later)
    ensures NoneSet(tokens, props) <==> NoRepeat(tokens, later)
  {
    forall i | 0 <= i < |tokens| && Property(tokens[i]).Some?
      ensures Get(props, Property(tokens[i]).value.0) == "" <==> !ClaimedIn(later, Property(tokens[i]).value.0)
    {
    }
  }

  /** Nothing is removed from the head, or everything would be. */
  ghost predicate LeftAlone(tokens: seq<Token>, later: seq<seq<Token>>) {
    NoRepeat(tokens, later) || OnlyRepeats(tokens, later)
  }

  /** The pass leaves the text of a head alone if and only if no removable tag in it repeats anything, or there is nothing in it but
      repetitions of what later heads claim. */
  lemma LeftAloneExactly(text: string, props: Properties, later: seq<seq<Token>>, tokenize: string -> seq<Token>)
    requires Reads(tokenize) && Records(props, later)
    ensures DedupText(text, props, tokenize).0 == text <==> LeftAlone(tokenize(text), later)
  {
    var tokens := tokenize(text);
    var kept := Scan(tokens, props).0;
    AllOrShorter(tokens, props);
    RawOfNothing(tokens, props);
    KeepsAllExactly(tokens, props);
    NoneSetIsNoRepeat(tokens, props, later);
    NothingKept(tokens, props, later);
  }

  // ------------------------------------------------------------------------------------ a second pass

  /** On tokens, running the pass again from scratch changes nothing. */
  lemma {:induction false} DedupHeadsIdempotent(heads: seq<seq<Token>>, props: Properties)
    ensures DedupHeads(DedupHeads(heads, props).0, props) == DedupHeads(heads, props)
  {
    if heads != [] {
      var n := |heads| - 1;
      var (last, props') := DedupHead(heads[n], props);
      var others := DedupHeads(heads[..n], props').0;
      ScanIdempotent(heads[n], props);
      DedupHeadsIdempotent(heads[..n], props');
      assert (others + [last])[..n] == others;
    }
  }

  /** Head i is one of those left alone, with the heads behind it and these still later ones. */
  ghost predicate Settled(texts: seq<string>, later: seq<seq<Token>>, tokenize: string -> seq<Token>, i: nat)
    requires i < |texts|
  {
    LeftAlone(tokenize(texts[i]), TokensOf(texts, tokenize)[i + 1..] + later)
  }

  ghost predicate AllSettled(texts: seq<string>, later: seq<seq<Token>>, tokenize: string -> seq<Token>) {
    forall i: nat :: i < |texts| ==> Settled(texts, later, tokenize, i)
  }

  lemma SettledInFront(texts: seq<string>, later: seq<seq<Token>>, tokenize: string -> seq<Token>, i: nat)
    requires i < |texts| - 1
    ensures var n := |texts| - 1;
            Settled(texts, later, tokenize, i) <==> Settled(texts[..n], [tokenize(texts[n])] + later, tokenize, i)
  {
    var n := |texts| - 1;
    assert TokensOf(texts[..n], tokenize)[i + 1..] + ([tokenize(texts[n])] + later) == TokensOf(texts, tokenize)[i + 1..] + later;
  }

  lemma SettledSnoc(texts: seq<string>, later: seq<seq<Token>>, tokenize: string -> seq<Token>)
    requires texts != []
    ensures var n := |texts| - 1;
            AllSettled(texts, later, tokenize) <==>
            LeftAlone(tokenize(texts[n]), later) && AllSettled(texts[..n], [tokenize(texts[n])] + later, tokenize)
  {
    var n := |texts| - 1;
    assert TokensOf(texts, tokenize)[n + 1..] + later == later;
    assert Settled(texts, later, tokenize, n) <==> LeftAlone(tokenize(texts[n]), later);
    forall i: nat | i < n ensures Settled(texts, later, tokenize, i) <==> Settled(texts[..n], [tokenize(texts[n])] + later, tokenize, i) {
      SettledInFront(texts, later, tokenize, i);
    }
  }

  lemma {:induction false} FixedFrom(texts: seq<string>, props: Properties, later: seq<seq<Token>>, tokenize: string -> seq<Token>)
    requires Reads(tokenize) && Records(props, later)
    ensures DedupTexts(texts, props, tokenize).0 == texts <==> AllSettled(texts, later, tokenize)
  {
    if texts != [] {
      var n := |texts| - 1;
      var (text, props') := DedupText(texts[n], props, tokenize);
      LeftAloneExactly(texts[n], props, later, tokenize);
      RecordsMore(tokenize(texts[n]), props, later);
      FixedFrom(texts[..n], props', [tokenize(texts[n])] + later, tokenize);
      SettledSnoc(texts, later, tokenize);
      SameSnoc(DedupTexts(texts[..n], props', tokenize).0, text, texts);
    }
  }

  lemma SameSnoc(front: seq<string>, last: string, all: seq<string>)
    requires |all| == |front| + 1
    ensures front + [last] == all <==> front == all[..|front|] && last == all[|front|]
  {
    assert all == all[..|front|] + [all[|front|]];
  }

  /** On texts, a pass changes nothing if and only if every head is one of those left alone, as it is read now. For the heads that a
      first pass wrote this says when a second pass changes them: removing a tag can make a new one of the text around it. */
  lemma FixedExactly(texts: seq<string>, tokenize: string -> seq<Token>)
    requires Reads(tokenize)
    ensures DedupTexts(texts, map[], tokenize).0 == texts <==> AllSettled(texts, [], tokenize)
  {
    FixedFrom(texts, map[], [], tokenize);
  }

  // ------------------------------------------------------------------------------------ a tag that appears

  const CHARSET_X := "<meta charset=x>"
  const CHARSET_Y := "<meta charset=y>"
  const AROUND := "<<meta charset=x>meta charset=x>foo"

  function Charset(value: string): Token {
    StartTag("meta", [Attribute("", "charset", value)], "<meta charset=" + value + ">")
  }

  /** How the tokenizer reads these texts. */
  ghost predicate ReadsCharsets(tokenize: string -> seq<Token>) {
    && tokenize(AROUND) == [TextToken("<"), Charset("x"), TextToken("meta charset=x>foo")]
    && tokenize(CHARSET_X + "foo") == [Charset("x"), TextToken("foo")]
    && tokenize(CHARSET_Y) == [Charset("y")]
  }

  /** In front of a head that sets the charset, the first pass takes the tag out of this head, and with what was left of it and right
      of it the text reads as the same tag again. The page holds two charset tags after all, and a second pass removes the new one. */
  lemma TagAppears(tokenize: string -> seq<Token>)
    requires ReadsCharsets(tokenize)
    ensures DedupTexts([AROUND, CHARSET_Y], map[], tokenize).0 == [CHARSET_X + "foo", CHARSET_Y]
    ensures DedupTexts([CHARSET_X + "foo", CHARSET_Y], map[], tokenize).0 == ["foo", CHARSET_Y]
    ensures !UniquePage(TokensOf([CHARSET_X + "foo", CHARSET_Y], tokenize))
  {
    var set_y: Properties := map["meta_charset" := "y"];
    OneCharset(tokenize);
    TagTakenOut(tokenize, set_y);
    TwoTexts(AROUND, CHARSET_Y, set_y, tokenize);
    TwoTexts(CHARSET_X + "foo", CHARSET_Y, set_y, tokenize);
    var heads := TokensOf([CHARSET_X + "foo", CHARSET_Y], tokenize);
    assert MetaKey(Charset("x").attrs) == MetaKey(Charset("y").attrs) == "meta_charset";
    assert Claims(heads[0][0], "meta_charset") && Claims(heads[1][0], "meta_charset");
  }

  lemma TwoTexts(a: string, b: string, props: Properties, tokenize: string -> seq<Token>)
    requires DedupText(b, map[], tokenize) == (b, props)
    ensures DedupTexts([a, b], map[], tokenize).0 == [DedupText(a, props, tokenize).0, b]
  {
    assert [a, b][..1] == [a] && [a][..0] == [];
    assert DedupTexts([a], props, tokenize).0 == [] + [DedupText(a, props, tokenize).0];
  }

  lemma OneCharset(tokenize: string -> seq<Token>)
    requires ReadsCharsets(tokenize)
    ensures DedupText(CHARSET_Y, map[], tokenize) == (CHARSET_Y, map["meta_charset" := "y"])
  {
    var t := Charset("y");
    assert MetaKey(t.attrs) == "meta_charset" && MetaValue(t.attrs) == "y" && [t][1..] == [];
    assert Set(t, map[]) == map["meta_charset" := "y"] && [t] + [] == [t];
    assert Scan([t], map[]) == ([t] + [], map["meta_charset" := "y"]);
    assert "<meta charset=" + "y" + ">" == CHARSET_Y;
    assert Raw([t]) == t.raw + "" == CHARSET_Y;
  }

  lemma TagTakenOut(tokenize: string -> seq<Token>, props: Properties)
    requires ReadsCharsets(tokenize) && Get(props, "meta_charset") != ""
    ensures DedupText(AROUND, props, tokenize).0 == CHARSET_X + "foo"
    ensures DedupText(CHARSET_X + "foo", props, tokenize).0 == "foo"
  {
    LeftAndRight(props);
    RightOnly(props);
  }

  lemma RightOnly(props: Properties)
    requires Get(props, "meta_charset") != ""
    ensures Raw(Scan([Charset("x"), TextToken("foo")], props).0) == "foo"
  {
    OneText(TextToken("foo"), props);
    DropTag(TextToken("foo"), props);
  }

  lemma LeftAndRight(props: Properties)
    requires Get(props, "meta_charset") != ""
    ensures Raw(Scan([TextToken("<"), Charset("x"), TextToken("meta charset=x>foo")], props).0) == CHARSET_X + "foo"
  {
    var left, right := TextToken("<"), TextToken("meta charset=x>foo");
    OneText(right, props);
    DropTag(right, props);
    KeptInFront(left, [Charset("x"), right], props);
    assert [left, Charset("x"), right] == [left] + [Charset("x"), right];
    JoinedText();
  }

  lemma JoinedText()
    ensures "<" + "meta charset=x>foo" == CHARSET_X + "foo"
  {
  }

  lemma OneText(b: Token, props: Properties)
    requires b.TextToken?
    ensures Raw(Scan([b], props).0) == b.raw
  {
    KeptInFront(b, [], props);
    assert [b] + [] == [b];
  }

  lemma DropTag(b: Token, props: Properties)
    requires Get(props, "meta_charset") != ""
    ensures Scan([Charset("x"), b], props).0 == Scan([b], props).0
  {
    assert MetaKey(Charset("x").attrs) == "meta_charset" && !Keeps(Charset("x"), props);
    assert [Charset("x"), b][1..] == [b];
  }
}
