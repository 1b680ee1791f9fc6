/** Head fragments that several merges share: the history of their rewriting, and when it leaves a head as it was loaded. */
module SharedHeads {
  import opened Wrappers
  import opened Html
  import opened Fragments
  import opened HeadDeduplication
  import opened HeadDeduplicationLaws
  import opened HeadFixpoints

  /** One head was rewritten in a merge with these later heads, which had set these properties. */
  datatype Rewrite = Rewrite(head: StringFragment, later: seq<seq<Token>>, props: Properties)

  /** What the backward pass rewrites, in the order in which it does; later is what it has read behind these heads. */
  ghost function Rewrites(heads: seq<StringFragment>, contents: map<StringFragment, string>, props: Properties, later: seq<seq<Token>>,
                          tokenize: string -> seq<Token>): seq<Rewrite>
    requires forall h :: h in heads ==> h in contents
  {
    if heads == [] then []
    else
      var n := |heads| - 1;
      var before := contents[heads[n]];
      var (text, props') := DedupText(before, props, tokenize);
      [Rewrite(heads[n], later, props)] + Rewrites(heads[..n], contents[heads[n] := text], props', [tokenize(before)] + later, tokenize)
  }

  /** What a history makes of a head loaded with this text. */
  ghost function Replay(text: string, head: StringFragment, log: seq<Rewrite>, tokenize: string -> seq<Token>): string {
    if log == [] then text
    else
      var n := |log| - 1;
      var before := Replay(text, head, log[..n], tokenize);
      if log[n].head == head then DedupText(before, log[n].props, tokenize).0 else before
  }

  lemma {:induction false} ReplayConcat(text: string, head: StringFragment, a: seq<Rewrite>, b: seq<Rewrite>, tokenize: string -> seq<Token>)
    ensures Replay(text, head, a + b, tokenize) == Replay(Replay(text, head, a, tokenize), head, b, tokenize)
  {
    if b == [] {
      assert a + b == a;
    } else {
      assert (a + b)[..|a + b| - 1] == a + b[..|b| - 1];
      ReplayConcat(text, head, a, b[..|b| - 1], tokenize);
    }
  }

  lemma ReplayOne(text: string, head: StringFragment, r: Rewrite, tokenize: string -> seq<Token>)
    ensures Replay(text, head, [r], tokenize) == if r.head == head then DedupText(text, r.props, tokenize).0 else text
  {
    assert [r][..0] == [];
  }

  /** The pass does to every head what replaying its rewrites does. */
  lemma {:induction false} PassIsReplay(heads: seq<StringFragment>, contents: map<StringFragment, string>, props: Properties,
                                        later: seq<seq<Token>>, tokenize: string -> seq<Token>, h: StringFragment)
    requires (forall x :: x in heads ==> x in contents) && h in contents
    ensures var after := AfterPass(heads, contents, props, tokenize);
            h in after && after[h] == Replay(contents[h], h, Rewrites(heads, contents, props, later, tokenize), tokenize)
  {
    if heads != [] {
      var n := |heads| - 1;
      var before := contents[heads[n]];
      var (text, props') := DedupText(before, props, tokenize);
      var changed, first, more := contents[heads[n] := text], Rewrite(heads[n], later, props), [tokenize(before)] + later;
      PassIsReplay(heads[..n], changed, props', more, tokenize, h);
      ReplayOne(contents[h], h, first, tokenize);
      ReplayConcat(contents[h], h, [first], Rewrites(heads[..n], changed, props', more, tokenize), tokenize);
    }
  }

  /** The properties of every rewrite are those that the later heads claim. */
  ghost predicate Faithful(log: seq<Rewrite>) {
    forall r :: r in log ==> Records(r.props, r.later)
  }

  lemma {:induction false} RewritesOfHeads(heads: seq<StringFragment>, contents: map<StringFragment, string>, props: Properties,
                                           later: seq<seq<Token>>, tokenize: string -> seq<Token>)
    requires (forall h :: h in heads ==> h in contents) && Reads(tokenize) && Records(props, later)
    ensures forall r :: r in Rewrites(heads, contents, props, later, tokenize) ==> r.head in heads
    ensures Faithful(Rewrites(heads, contents, props, later, tokenize))
  {
    if heads != [] {
      var n := |heads| - 1;
      var before := contents[heads[n]];
      var (text, props') := DedupText(before, props, tokenize);
      RecordsMore(tokenize(before), props, later);
      RewritesOfHeads(heads[..n], contents[heads[n] := text], props', [tokenize(before)] + later, tokenize);
    }
  }

  lemma {:induction false} ReplayOfOthers(text: string, head: StringFragment, log: seq<Rewrite>, tokenize: string -> seq<Token>)
    requires forall r :: r in log ==> r.head != head
    ensures Replay(text, head, log, tokenize) == text
  {
    if log != [] {
      assert log[|log| - 1] in log;
      ReplayOfOthers(text, head, log[..|log| - 1], tokenize);
    }
  }

  // ----------------------------------------------------------------------------- when a head is intact

  lemma DedupShorter(text: string, props: Properties, tokenize: string -> seq<Token>)
    requires Reads(tokenize)
    ensures var after := DedupText(text, props, tokenize).0; |after| < |text| || after == text
  {
    AllOrShorter(tokenize(text), props);
  }

  /** In every merge that rewrote the head, no removable tag of the text repeated what a later head or an earlier tag claimed, or it
      held nothing but repetitions of later heads. */
  ghost predicate Untouched(text: string, head: StringFragment, log: seq<Rewrite>, tokenize: string -> seq<Token>) {
    forall r :: r in log && r.head == head ==> LeftAlone(tokenize(text), r.later)
  }

  lemma UntouchedSnoc(text: string, head: StringFragment, log: seq<Rewrite>, tokenize: string -> seq<Token>)
    requires log != []
    ensures var n := |log| - 1;
            Untouched(text, head, log, tokenize) <==>
            Untouched(text, head, log[..n], tokenize) && (log[n].head == head ==> LeftAlone(tokenize(text), log[n].later))
  {
    var n := |log| - 1;
    assert forall r :: r in log <==> r in log[..n] || r == log[n];
  }

  /** A head has the text it was loaded with if and only if, in every merge that rewrote it, the tags of the merged heads left that
      text alone: what is once removed never comes back. */
  lemma {:induction false} IntactExactly(text: string, head: StringFragment, log: seq<Rewrite>, tokenize: string -> seq<Token>)
    requires Reads(tokenize) && Faithful(log)
    ensures Replay(text, head, log, tokenize) == text <==> Untouched(text, head, log, tokenize)
    ensures Replay(text, head, log, tokenize) == text || |Replay(text, head, log, tokenize)| < |text|
  {
    if log != [] {
      var n := |log| - 1;
      assert log[n] in log && forall r :: r in log[..n] ==> r in log;
      IntactExactly(text, head, log[..n], tokenize);
      UntouchedSnoc(text, head, log, tokenize);
      DedupShorter(Replay(text, head, log[..n], tokenize), log[n].props, tokenize);
      LeftAloneExactly(text, log[n].props, log[n].later, tokenize);
    }
  }

  const TITLE_AND_CHARSET := "<title>A</title><meta charset=\"x\">"
  const CHARSET := "<meta charset=\"x\">"
  const OTHER_TITLE := "<title>B</title>"

  ghost predicate ReadsTitles(tokenize: string -> seq<Token>) {
    && tokenize(TITLE_AND_CHARSET) == [StartTag("title", [], "<title>"), TextToken("A"), EndTag("title", "</title>"),
                                       StartTag("meta", [Attribute("", "charset", "x")], CHARSET)]
    && tokenize(OTHER_TITLE) == [StartTag("title", [], "<title>"), TextToken("B"), EndTag("title", "</title>")]
  }

  /** A page whose head has a title and a charset, merged once with a later page that has a title, loses its title for good. */
  lemma TitleLost(a: StringFragment, b: StringFragment, tokenize: string -> seq<Token>)
    requires a != b && ReadsTitles(tokenize)
    ensures var log := Rewrites([a, b], map[a := TITLE_AND_CHARSET, b := OTHER_TITLE], map[], [], tokenize);
            Replay(TITLE_AND_CHARSET, a, log, tokenize) == CHARSET && !Untouched(TITLE_AND_CHARSET, a, log, tokenize)
  {
    TitlesScanned(tokenize);
    TwoRewrites(a, b, map[a := TITLE_AND_CHARSET, b := OTHER_TITLE], map["title" := "title"], tokenize);
    var later := [tokenize(OTHER_TITLE)];
    var log := [Rewrite(b, [], map[])] + [Rewrite(a, later, map["title" := "title"])];
    ReplayOfTwo(TITLE_AND_CHARSET, a, log[0], log[1], tokenize);
    TitleRepeated(tokenize, later);
    assert log[1] in log;
  }

  lemma TitleRepeated(tokenize: string -> seq<Token>, later: seq<seq<Token>>)
    requires ReadsTitles(tokenize) && later == [tokenize(OTHER_TITLE)]
    ensures !LeftAlone(tokenize(TITLE_AND_CHARSET), later)
  {
    var tokens := tokenize(TITLE_AND_CHARSET);
    assert Claims(tokenize(OTHER_TITLE)[0], "title") && FirstClaim(later[0], "title").Some?;
    assert Property(tokens[0]) == Some(("title", "title")) && ClaimedIn(later, "title");
    FirstClaimNone(later[0], "meta_charset");
    assert tokens[3] == StartTag("meta", [Attribute("", "charset", "x")], CHARSET) && MetaKey(tokens[3].attrs) == "meta_charset";
    assert !ClaimedIn(later, "meta_charset");
    assert tokens[1..] == [tokens[1], tokens[2], tokens[3]] && tokens[1..][1..] == [tokens[2], tokens[3]];
    assert [tokens[2], tokens[3]][1..] == [tokens[3]];
    assert AfterTitle([tokens[2], tokens[3]]) == [tokens[3]] && AfterTitle(tokens[1..]) == [tokens[3]];
    assert !OnlyRepeats([tokens[3]], later);
  }

  lemma TitlesScanned(tokenize: string -> seq<Token>)
    requires ReadsTitles(tokenize)
    ensures DedupText(OTHER_TITLE, map[], tokenize) == (OTHER_TITLE, map["title" := "title"])
    ensures DedupText(TITLE_AND_CHARSET, map["title" := "title"], tokenize).0 == CHARSET
  {
    LaterTitle(tokenize(OTHER_TITLE), "B");
    EarlierTitle(tokenize(TITLE_AND_CHARSET), "A");
    assert "<title>" + "B" + "</title>" == OTHER_TITLE;
  }

  lemma ReplayOfTwo(text: string, a: StringFragment, first: Rewrite, second: Rewrite, tokenize: string -> seq<Token>)
    requires first.head != a && second.head == a
    ensures Replay(text, a, [first] + [second], tokenize) == DedupText(text, second.props, tokenize).0
  {
    ReplayOne(text, a, first, tokenize);
    ReplayOne(text, a, second, tokenize);
    ReplayConcat(text, a, [first], [second], tokenize);
  }

  lemma TwoRewrites(a: StringFragment, b: StringFragment, contents: map<StringFragment, string>, props: Properties,
                    tokenize: string -> seq<Token>)
    requires a in contents && b in contents && DedupText(contents[b], map[], tokenize) == (contents[b], props)
    ensures Rewrites([a, b], contents, map[], [], tokenize) == [Rewrite(b, [], map[])] + [Rewrite(a, [tokenize(contents[b])], props)]
  {
    var later := [tokenize(contents[b])];
    assert contents[b := contents[b]] == contents && [a, b][..1] == [a] && [a][..0] == [] && later + [] == later;
    assert Rewrites([a], contents, props, later, tokenize) == [Rewrite(a, later, props)] + [];
  }

  lemma LaterTitle(tokens: seq<Token>, text: string)
    requires tokens == [StartTag("title", [], "<title>"), TextToken(text), EndTag("title", "</title>")]
    ensures Scan(tokens, map[]) == (tokens, map["title" := "title"])
    ensures Raw(tokens) == "<title>" + text + "</title>"
  {
    var titled: Properties := map["title" := "title"];
    var start, x, end := tokens[0], tokens[1], tokens[2];
    assert tokens == [start, x, end] && tokens[1..] == [x, end] && [x, end][1..] == [end] && [end][1..] == [];
    assert Set(start, map[]) == titled;
    assert Scan([end], titled) == ([end] + [], titled) && [end] + [] == [end];
    assert Scan([x, end], titled) == ([x] + [end], titled) && [x] + [end] == [x, end];
    assert Scan(tokens, map[]) == ([start] + [x, end], titled) && [start] + [x, end] == tokens;
    assert Raw([tokens[2]]) == "</title>" + "";
    assert Raw(tokens[1..]) == text + "</title>";
  }

  lemma EarlierTitle(tokens: seq<Token>, text: string)
    requires tokens == [StartTag("title", [], "<title>"), TextToken(text), EndTag("title", "</title>"),
                        StartTag("meta", [Attribute("", "charset", "x")], CHARSET)]
    ensures Raw(Scan(tokens, map["title" := "title"]).0) == CHARSET
  {
    var titled: Properties := map["title" := "title"];
    var meta := tokens[3];
    assert tokens[1..] == [tokens[1], tokens[2], meta] && tokens[1..][1..] == [tokens[2], meta];
    assert [tokens[2], meta][1..] == [meta] && [meta][1..] == [];
    assert AfterTitle([tokens[2], meta]) == [meta] && AfterTitle(tokens[1..]) == [meta];
    assert MetaKey(meta.attrs) == "meta_charset";
    assert Keeps(meta, titled) && Scan([meta], titled).0 == [meta] + [];
    assert Scan(tokens, titled) == Scan([meta], titled);
    assert Raw([meta]) == meta.raw + "";
  }
}
