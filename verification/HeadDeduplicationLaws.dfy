/** What the backward pass over the heads achieves: one tag per property, taken from the last head that has one,
    and a second pass changes nothing. */
module HeadDeduplicationLaws {
  import opened Wrappers
  import opened Html
  import opened HeadDeduplication

  /** The tag sets this property to something. */
  predicate Claims(t: Token, key: string) {
    Property(t).Some? && Property(t).value.0 == key && Property(t).value.1 != ""
  }

  function FirstClaim(tokens: seq<Token>, key: string): Option<Token> {
    if tokens == [] then None
    else if Claims(tokens[0], key) then Some(tokens[0])
    else FirstClaim(tokens[1..], key)
  }

  /** No property is claimed twice. */
  ghost predicate Unique(tokens: seq<Token>) {
    forall i, j, key :: 0 <= i < j < |tokens| && Claims(tokens[i], key) ==> !Claims(tokens[j], key)
  }

  predicate ClaimFree(t: Token) {
    Property(t).Some? ==> Property(t).value.1 == ""
  }

  predicate TitleText(tokens: seq<Token>) {
    tokens == [] || (tokens[0].EndTag? && tokens[0].name == "title") || (ClaimFree(tokens[0]) && TitleText(tokens[1..]))
  }

  /** Titles hold no tags that claim something; the tokenizer reads their content as text. */
  predicate WellTitled(tokens: seq<Token>) {
    tokens != [] ==>
      && (tokens[0].StartTag? && tokens[0].name == "title" ==> TitleText(tokens[1..]))
      && WellTitled(tokens[1..])
  }

  lemma {:induction false} TitleSkipped(tokens: seq<Token>, key: string)
    requires TitleText(tokens)
    ensures FirstClaim(AfterTitle(tokens), key) == FirstClaim(tokens, key)
    ensures WellTitled(tokens) ==> WellTitled(AfterTitle(tokens))
  {
    if tokens != [] && !(tokens[0].EndTag? && tokens[0].name == "title") {
      TitleSkipped(tokens[1..], key);
    }
  }

  lemma SetGet(t: Token, props: Properties, key: string)
    requires Keeps(t, props)
    ensures Get(Set(t, props), key) != "" <==> Get(props, key) != "" || Claims(t, key)
  {
  }

  /** A scan keeps exactly the first claim of every property that is not set yet, and records it as set. */
  lemma {:induction false} ScanClaims(tokens: seq<Token>, props: Properties, key: string)
    requires WellTitled(tokens)
    ensures FirstClaim(Scan(tokens, props).0, key) == if Get(props, key) == "" then FirstClaim(tokens, key) else None
    ensures Get(Scan(tokens, props).1, key) != "" <==> Get(props, key) != "" || FirstClaim(tokens, key).Some?
    decreases |tokens|
  {
    if tokens != [] {
      var t := tokens[0];
      if Keeps(t, props) {
        SetGet(t, props, key);
        ScanClaims(tokens[1..], Set(t, props), key);
        assert Scan(tokens, props).0[1..] == Scan(tokens[1..], Set(t, props)).0;
      } else if t.StartTag? && t.name == "title" {
        TitleSkipped(tokens[1..], key);
        ScanClaims(AfterTitle(tokens[1..]), props, key);
      } else {
        ScanClaims(tokens[1..], props, key);
      }
    }
  }

  lemma {:induction false} FirstClaimNone(tokens: seq<Token>, key: string)
    ensures FirstClaim(tokens, key) == None <==> forall t :: t in tokens ==> !Claims(t, key)
  {
    if tokens != [] { FirstClaimNone(tokens[1..], key); }
  }

  /** What a scan keeps claims nothing twice, and nothing that was set before. */
  lemma {:induction false} ScanUnique(tokens: seq<Token>, props: Properties)
    ensures Unique(Scan(tokens, props).0)
    ensures forall t, key :: t in Scan(tokens, props).0 && Claims(t, key) ==> Get(props, key) == ""
    decreases |tokens|
  {
    if tokens != [] {
      var t := tokens[0];
      if Keeps(t, props) {
        ScanUnique(tokens[1..], Set(t, props));
        forall key ensures Get(Set(t, props), key) != "" <==> Get(props, key) != "" || Claims(t, key) { SetGet(t, props, key); }
      } else if t.StartTag? && t.name == "title" {
        ScanUnique(AfterTitle(tokens[1..]), props);
      } else {
        ScanUnique(tokens[1..], props);
      }
    }
  }

  // ------------------------------------------------------------------------------------------- all heads

  predicate ClaimsNothing(tokens: seq<Token>) {
    forall t :: t in tokens ==> ClaimFree(t)
  }

  /** Of every head that claims something at least one token survives, so that it is rewritten. */
  predicate Rewritten(heads: seq<seq<Token>>, props: Properties) {
    heads != [] ==>
      var n := |heads| - 1;
      var (kept, props') := Scan(heads[n], props);
      (|Raw(kept)| > 0 || ClaimsNothing(heads[n])) && Rewritten(heads[..n], props')
  }

  ghost predicate ClaimedLater(heads: seq<seq<Token>>, i: nat, key: string) {
    exists j :: i < j < |heads| && FirstClaim(heads[j], key).Some?
  }

  lemma ClaimsNothingFirst(tokens: seq<Token>, key: string)
    requires ClaimsNothing(tokens)
    ensures FirstClaim(tokens, key) == None && Unique(tokens)
  {
    FirstClaimNone(tokens, key);
    assert forall i :: 0 <= i < |tokens| ==> tokens[i] in tokens;
  }

  /** After the pass a property is claimed only in the last head that claimed it, by that head's first claim. */
  lemma {:induction false} LastHeadWins(heads: seq<seq<Token>>, props: Properties, key: string, i: nat)
    requires i < |heads| && (forall h :: h in heads ==> WellTitled(h)) && Rewritten(heads, props)
    ensures FirstClaim(DedupHeads(heads, props).0[i], key)
         == if Get(props, key) != "" || ClaimedLater(heads, i, key) then None else FirstClaim(heads[i], key)
  {
    var n := |heads| - 1;
    var props' := Scan(heads[n], props).1;
    ScanClaims(heads[n], props, key);
    if i < n {
      LastHeadWins(heads[..n], props', key, i);
      ClaimedLaterSplit(heads, i, key);
      var (last, _) := DedupHead(heads[n], props);
      assert DedupHeads(heads, props).0 == DedupHeads(heads[..n], props').0 + [last];
    } else {
      assert !ClaimedLater(heads, n, key);
      if ClaimsNothing(heads[n]) { ClaimsNothingFirst(heads[n], key); }
    }
  }

  lemma ClaimedLaterSplit(heads: seq<seq<Token>>, i: nat, key: string)
    requires i < |heads| - 1
    ensures var n := |heads| - 1;
            ClaimedLater(heads, i, key) <==> ClaimedLater(heads[..n], i, key) || FirstClaim(heads[n], key).Some?
  {
    var n := |heads| - 1;
    assert forall j :: i < j < n ==> heads[j] == heads[..n][j];
  }

  lemma {:induction false} EachHeadUnique(heads: seq<seq<Token>>, props: Properties, i: nat)
    requires i < |heads| && Rewritten(heads, props)
    ensures Unique(DedupHeads(heads, props).0[i])
  {
    var n := |heads| - 1;
    ScanUnique(heads[n], props);
    if ClaimsNothing(heads[n]) { ClaimsNothingFirst(heads[n], ""); }
    if i < n { EachHeadUnique(heads[..n], Scan(heads[n], props).1, i); }
  }

  /** No property is claimed twice on the whole page: at most one title, one canonical link with a target, and one meta tag
      with a value per key. */
  ghost predicate UniquePage(heads: seq<seq<Token>>) {
    forall i, a, j, b, key ::
      (0 <= i < |heads| && 0 <= a < |heads[i]| && 0 <= j < |heads| && 0 <= b < |heads[j]|
       && Claims(heads[i][a], key) && Claims(heads[j][b], key))
      ==> i == j && a == b
  }

  /** At most one tag per property remains. */
  lemma AtMostOne(heads: seq<seq<Token>>)
    requires (forall h :: h in heads ==> WellTitled(h)) && Rewritten(heads, map[])
    ensures UniquePage(DedupHeads(heads, map[]).0)
  {
    var result := DedupHeads(heads, map[]).0;
    forall i, a, j, b, key | 0 <= i < |heads| && 0 <= a < |result[i]| && 0 <= j < |heads| && 0 <= b < |result[j]|
                             && Claims(result[i][a], key) && Claims(result[j][b], key)
      ensures i == j && a == b
    {
      LastHeadWins(heads, map[], key, i);
      LastHeadWins(heads, map[], key, j);
      FirstClaimNone(result[i], key);
      FirstClaimNone(result[j], key);
      EachHeadUnique(heads, map[], i);
      assert result[i][a] in result[i] && result[j][b] in result[j];
    }
  }

  // ------------------------------------------------------------------------------ heads left as they are

  ghost predicate HasText(tokens: seq<Token>) {
    forall t :: t in tokens ==> t.raw != ""
  }

  lemma {:induction false} AfterTitleIn(tokens: seq<Token>)
    ensures forall t :: t in AfterTitle(tokens) ==> t in tokens
  {
    if tokens != [] { AfterTitleIn(tokens[1..]); }
  }

  lemma {:induction false} ScanIn(tokens: seq<Token>, props: Properties)
    ensures forall t :: t in Scan(tokens, props).0 ==> t in tokens
    decreases |tokens|
  {
    if tokens != [] {
      var t := tokens[0];
      if Keeps(t, props) {
        ScanIn(tokens[1..], Set(t, props));
      } else if t.StartTag? && t.name == "title" {
        AfterTitleIn(tokens[1..]);
        ScanIn(AfterTitle(tokens[1..]), props);
      } else {
        ScanIn(tokens[1..], props);
      }
    }
  }

  /** A head of which nothing survives claims only what was set before. */
  lemma NothingSurvives(tokens: seq<Token>, props: Properties, key: string)
    requires WellTitled(tokens) && HasText(tokens) && |Raw(Scan(tokens, props).0)| == 0
    ensures FirstClaim(tokens, key).Some? ==> Get(props, key) != ""
  {
    var kept := Scan(tokens, props).0;
    ScanClaims(tokens, props, key);
    ScanIn(tokens, props);
    if kept != [] { assert kept[0] in kept; }
  }

  /** A head that is left as it is although it claims something repeats a claim. */
  lemma {:induction false} LeftAsItIs(heads: seq<seq<Token>>, props: Properties) returns (i: nat, key: string)
    requires (forall h :: h in heads ==> WellTitled(h) && HasText(h)) && !Rewritten(heads, props)
    ensures i < |heads| && DedupHeads(heads, props).0[i] == heads[i] && FirstClaim(heads[i], key).Some?
    ensures Get(props, key) != "" || ClaimedLater(heads, i, key)
  {
    var n := |heads| - 1;
    var (kept, props') := Scan(heads[n], props);
    if |Raw(kept)| == 0 && !ClaimsNothing(heads[n]) {
      var t :| t in heads[n] && !ClaimFree(t);
      i, key := n, Property(t).value.0;
      FirstClaimNone(heads[n], key);
      NothingSurvives(heads[n], props, key);
    } else {
      i, key := LeftAsItIs(heads[..n], props');
      ScanClaims(heads[n], props, key);
      ClaimedLaterSplit(heads, i, key);
    }
  }

  /** The last head that claims a property goes on claiming it, rewritten or not. */
  lemma {:induction false} StillClaimed(heads: seq<seq<Token>>, props: Properties, key: string, j: nat)
    requires (forall h :: h in heads ==> WellTitled(h)) && Get(props, key) == ""
    requires j < |heads| && FirstClaim(heads[j], key).Some? && !ClaimedLater(heads, j, key)
    ensures FirstClaim(DedupHeads(heads, props).0[j], key).Some?
  {
    var n := |heads| - 1;
    ScanClaims(heads[n], props, key);
    if j < n {
      var (last, props') := DedupHead(heads[n], props);
      ClaimedLaterSplit(heads, j, key);
      StillClaimed(heads[..n], props', key, j);
      assert DedupHeads(heads, props).0 == DedupHeads(heads[..n], props').0 + [last];
    }
  }

  lemma LastClaim(heads: seq<seq<Token>>, key: string, i: nat) returns (j: nat)
    requires i < |heads| && FirstClaim(heads[i], key).Some?
    ensures i <= j < |heads| && FirstClaim(heads[j], key).Some? && !ClaimedLater(heads, j, key)
    ensures ClaimedLater(heads, i, key) ==> i < j
  {
    j := i;
    while ClaimedLater(heads, j, key)
      invariant i <= j < |heads| && FirstClaim(heads[j], key).Some?
      invariant j == i || i < j
      decreases |heads| - j
    {
      var next: int :| j < next < |heads| && FirstClaim(heads[next], key).Some?;
      j := next;
    }
  }

  lemma {:induction false} FirstClaimAt(tokens: seq<Token>, key: string) returns (a: nat)
    requires FirstClaim(tokens, key).Some?
    ensures a < |tokens| && Claims(tokens[a], key)
  {
    if Claims(tokens[0], key) {
      a := 0;
    } else {
      a := FirstClaimAt(tokens[1..], key);
      a := a + 1;
    }
  }

  ghost predicate ClaimedIn(heads: seq<seq<Token>>, key: string) {
    exists j :: 0 <= j < |heads| && FirstClaim(heads[j], key).Some?
  }

  /** Nothing but removable tags whose properties the later heads claim, and the content of titles. */
  ghost predicate OnlyRepeats(tokens: seq<Token>, later: seq<seq<Token>>)
    decreases |tokens|
  {
    tokens != [] ==>
      && Property(tokens[0]).Some? && ClaimedIn(later, Property(tokens[0]).value.0)
      && OnlyRepeats(if tokens[0].StartTag? && tokens[0].name == "title" then AfterTitle(tokens[1..]) else tokens[1..], later)
  }

  /** Every head that claims something has more than repetitions of what later heads claim. */
  ghost predicate NoHeadOnlyRepeats(heads: seq<seq<Token>>) {
    forall i :: 0 <= i < |heads| ==> ClaimsNothing(heads[i]) || !OnlyRepeats(heads[i], heads[i + 1..])
  }

  ghost predicate Records(props: Properties, later: seq<seq<Token>>) {
    forall key :: Get(props, key) != "" <==> ClaimedIn(later, key)
  }

  lemma {:induction false} NothingKept(tokens: seq<Token>, props: Properties, later: seq<seq<Token>>)
    requires Records(props, later)
    ensures Scan(tokens, props).0 == [] <==> OnlyRepeats(tokens, later)
    decreases |tokens|
  {
    if tokens != [] && !Keeps(tokens[0], props) {
      NothingKept(if tokens[0].StartTag? && tokens[0].name == "title" then AfterTitle(tokens[1..]) else tokens[1..], props, later);
    }
  }

  lemma RecordsMore(tokens: seq<Token>, props: Properties, later: seq<seq<Token>>)
    requires WellTitled(tokens) && Records(props, later)
    ensures Records(Scan(tokens, props).1, [tokens] + later)
  {
    var more := [tokens] + later;
    forall key ensures Get(Scan(tokens, props).1, key) != "" <==> ClaimedIn(more, key) {
      ScanClaims(tokens, props, key);
      assert more[0] == tokens && forall j :: 0 <= j < |later| ==> more[j + 1] == later[j];
      if ClaimedIn(more, key) {
        var j :| 0 <= j < |more| && FirstClaim(more[j], key).Some?;
        if j > 0 { assert FirstClaim(later[j - 1], key).Some?; }
      }
    }
  }

  lemma RawOfNothing(tokens: seq<Token>, props: Properties)
    requires HasText(tokens)
    ensures |Raw(Scan(tokens, props).0)| == 0 <==> Scan(tokens, props).0 == []
  {
    var kept := Scan(tokens, props).0;
    ScanIn(tokens, props);
    if kept != [] { assert kept[0] in kept; }
  }

  /** Something would be left of head i, or it claims nothing. */
  ghost predicate Leaves(heads: seq<seq<Token>>, later: seq<seq<Token>>, i: nat)
    requires i < |heads|
  {
    ClaimsNothing(heads[i]) || !OnlyRepeats(heads[i], heads[i + 1..] + later)
  }

  lemma LeavesInFront(heads: seq<seq<Token>>, later: seq<seq<Token>>, i: nat)
    requires i < |heads| - 1
    ensures Leaves(heads[..|heads| - 1], [heads[|heads| - 1]] + later, i) <==> Leaves(heads, later, i)
  {
    assert heads[..|heads| - 1][i + 1..] + ([heads[|heads| - 1]] + later) == heads[i + 1..] + later;
  }

  lemma {:induction false} RewrittenExactly(heads: seq<seq<Token>>, props: Properties, later: seq<seq<Token>>)
    requires (forall h :: h in heads ==> WellTitled(h) && HasText(h)) && Records(props, later)
    ensures Rewritten(heads, props) <==> forall i :: 0 <= i < |heads| ==> Leaves(heads, later, i)
  {
    if heads != [] {
      var n := |heads| - 1;
      LastRewritten(heads[n], props, later);
      RecordsMore(heads[n], props, later);
      RewrittenExactly(heads[..n], Scan(heads[n], props).1, [heads[n]] + later);
      assert heads[n + 1..] + later == later;
      assert Leaves(heads, later, n) <==> ClaimsNothing(heads[n]) || !OnlyRepeats(heads[n], later);
      forall i | 0 <= i < n ensures Leaves(heads[..n], [heads[n]] + later, i) <==> Leaves(heads, later, i) { LeavesInFront(heads, later, i); }
    }
  }

  lemma LastRewritten(head: seq<Token>, props: Properties, later: seq<seq<Token>>)
    requires HasText(head) && Records(props, later)
    ensures |Raw(Scan(head, props).0)| == 0 <==> OnlyRepeats(head, later)
  {
    RawOfNothing(head, props);
    NothingKept(head, props, later);
  }

  lemma NoHeadOnlyRepeatsIsRewritten(heads: seq<seq<Token>>)
    requires forall h :: h in heads ==> WellTitled(h) && HasText(h)
    ensures NoHeadOnlyRepeats(heads) <==> Rewritten(heads, map[])
  {
    RewrittenExactly(heads, map[], []);
    forall i | 0 <= i < |heads| ensures Leaves(heads, [], i) <==> ClaimsNothing(heads[i]) || !OnlyRepeats(heads[i], heads[i + 1..]) {
      assert heads[i + 1..] + [] == heads[i + 1..];
    }
  }

  /** No property is claimed twice on the resulting page if and only if no head that claims something only repeats what later heads
      claim: such a head, of which nothing would be left, stays as it is. */
  lemma UniqueExactly(heads: seq<seq<Token>>)
    requires forall h :: h in heads ==> WellTitled(h) && HasText(h)
    ensures UniquePage(DedupHeads(heads, map[]).0) <==> NoHeadOnlyRepeats(heads)
  {
    NoHeadOnlyRepeatsIsRewritten(heads);
    if Rewritten(heads, map[]) {
      AtMostOne(heads);
    } else {
      var result := DedupHeads(heads, map[]).0;
      var i, key := LeftAsItIs(heads, map[]);
      var j := LastClaim(heads, key, i);
      StillClaimed(heads, map[], key, j);
      var a := FirstClaimAt(result[i], key);
      var b := FirstClaimAt(result[j], key);
      assert i != j && Claims(result[i][a], key) && Claims(result[j][b], key);
    }
  }

  /** Two heads that hold the same title and nothing else keep both titles. */
  lemma TwoTitlesStay(text: string)
    ensures var head := [StartTag("title", [], "<title>"), TextToken(text), EndTag("title", "</title>")];
            DedupHeads([head, head], map[]).0 == [head, head]
  {
    var start, x, end := StartTag("title", [], "<title>"), TextToken(text), EndTag("title", "</title>");
    var head := [start, x, end];
    var titled := Set(start, map[]);
    assert head[1..] == [x, end] && [x, end][1..] == [end] && [end][1..] == [];
    assert Scan([], titled) == ([], titled);
    assert Scan([end], titled) == ([end] + [], titled) && [end] + [] == [end];
    assert Scan([x, end], titled) == ([x] + [end], titled) && [x] + [end] == [x, end];
    assert Scan(head, map[]) == ([start] + [x, end], titled) && [start] + [x, end] == head;
    assert Raw(head) == start.raw + Raw([x, end]);
    assert AfterTitle([end]) == [] && AfterTitle([x, end]) == [];
    assert Scan(head, titled) == ([], titled) && Raw([]) == "";
    assert DedupHead(head, map[]) == (head, titled) && DedupHead(head, titled) == (head, titled);
    assert [head, head][..1] == [head] && [head][..0] == [];
    assert DedupHeads([head], titled).0 == [head];
  }

  /** With the heads in ascending priority the surviving claim is the first one of a head of maximal priority among the
      heads that make the claim, and it survives whenever some head makes it. */
  lemma PriorityWins(heads: seq<seq<Token>>, priorities: seq<int>, key: string, j: nat) returns (i: nat)
    requires (forall h :: h in heads ==> WellTitled(h)) && Rewritten(heads, map[])
    requires |priorities| == |heads| && (forall a, b :: 0 <= a < b < |heads| ==> priorities[a] <= priorities[b])
    requires j < |heads| && FirstClaim(heads[j], key).Some?
    ensures i < |heads| && FirstClaim(heads[i], key).Some?
    ensures forall h :: 0 <= h < |heads| && FirstClaim(heads[h], key).Some? ==> priorities[h] <= priorities[i]
    ensures FirstClaim(DedupHeads(heads, map[]).0[i], key) == FirstClaim(heads[i], key)
    ensures forall h :: 0 <= h < |heads| && h != i ==> FirstClaim(DedupHeads(heads, map[]).0[h], key) == None
  {
    i := LastClaim(heads, key, j);
    forall h | 0 <= h < |heads| ensures h != i ==> FirstClaim(DedupHeads(heads, map[]).0[h], key) == None {
      LastHeadWins(heads, map[], key, h);
    }
    LastHeadWins(heads, map[], key, i);
  }

  // ----------------------------------------------------------------------------------------- idempotence

  lemma {:induction false} ScanIdempotent(tokens: seq<Token>, props: Properties)
    ensures Scan(Scan(tokens, props).0, props) == Scan(tokens, props)
    decreases |tokens|
  {
    if tokens != [] {
      var t := tokens[0];
      if Keeps(t, props) {
        ScanIdempotent(tokens[1..], Set(t, props));
        assert Scan(tokens, props).0[1..] == Scan(tokens[1..], Set(t, props)).0;
      } else if t.StartTag? && t.name == "title" {
        ScanIdempotent(AfterTitle(tokens[1..]), props);
      } else {
        ScanIdempotent(tokens[1..], props);
      }
    }
  }

  /** What reading a text back makes of tokens written one behind the other: neighbouring texts become one. */
  function Coalesce(tokens: seq<Token>): seq<Token> {
    if tokens == [] then []
    else
      var rest := Coalesce(tokens[1..]);
      if tokens[0].TextToken? && rest != [] && rest[0].TextToken? then [TextToken(tokens[0].raw + rest[0].raw)] + rest[1..]
      else [tokens[0]] + rest
  }

  lemma {:induction false} AfterTitleCoalesced(tokens: seq<Token>)
    ensures AfterTitle(Coalesce(tokens)) == Coalesce(AfterTitle(tokens))
  {
    if tokens != [] {
      var rest := Coalesce(tokens[1..]);
      AfterTitleCoalesced(tokens[1..]);
      assert Coalesce(tokens)[1..] == if tokens[0].TextToken? && rest != [] && rest[0].TextToken? then rest[1..] else rest;
    }
  }

  /** What is in front of a kept token. */
  lemma KeptInFront(t: Token, rest: seq<Token>, props: Properties)
    requires Keeps(t, props)
    ensures Raw(Scan([t] + rest, props).0) == t.raw + Raw(Scan(rest, Set(t, props)).0)
    ensures Scan([t] + rest, props).1 == Scan(rest, Set(t, props)).1
  {
    assert ([t] + rest)[1..] == rest;
    assert Scan([t] + rest, props).0[1..] == Scan(rest, Set(t, props)).0;
  }

  /** Two texts written as one. */
  lemma JoinedTexts(t: Token, u: Token, rest: seq<Token>, props: Properties)
    requires t.TextToken? && u.TextToken?
    ensures Raw(Scan([TextToken(t.raw + u.raw)] + rest, props).0) == t.raw + Raw(Scan([u] + rest, props).0)
    ensures Scan([TextToken(t.raw + u.raw)] + rest, props).1 == Scan([u] + rest, props).1
  {
    KeptInFront(TextToken(t.raw + u.raw), rest, props);
    KeptInFront(u, rest, props);
  }

  /** Joining neighbouring texts changes neither what a scan writes nor what it records. */
  lemma {:induction false} ScanCoalesced(tokens: seq<Token>, props: Properties)
    ensures Raw(Scan(Coalesce(tokens), props).0) == Raw(Scan(tokens, props).0)
    ensures Scan(Coalesce(tokens), props).1 == Scan(tokens, props).1
    decreases |tokens|
  {
    if tokens != [] {
      var t, rest := tokens[0], Coalesce(tokens[1..]);
      assert tokens == [t] + tokens[1..];
      if t.TextToken? && rest != [] && rest[0].TextToken? {
        ScanCoalesced(tokens[1..], props);
        assert rest == [rest[0]] + rest[1..];
        JoinedTexts(t, rest[0], rest[1..], props);
        KeptInFront(t, tokens[1..], props);
      } else if Keeps(t, props) {
        ScanCoalesced(tokens[1..], Set(t, props));
        KeptCoalesced(t, tokens[1..], rest, props);
      } else {
        DroppedCoalesced(tokens, props);
      }
    }
  }

  lemma KeptCoalesced(t: Token, tokens: seq<Token>, rest: seq<Token>, props: Properties)
    requires Keeps(t, props) && Raw(Scan(rest, Set(t, props)).0) == Raw(Scan(tokens, Set(t, props)).0)
    requires Scan(rest, Set(t, props)).1 == Scan(tokens, Set(t, props)).1
    ensures Raw(Scan([t] + rest, props).0) == Raw(Scan([t] + tokens, props).0)
    ensures Scan([t] + rest, props).1 == Scan([t] + tokens, props).1
  {
    KeptInFront(t, rest, props);
    KeptInFront(t, tokens, props);
  }

  lemma {:induction false} DroppedCoalesced(tokens: seq<Token>, props: Properties)
    requires tokens != [] && !Keeps(tokens[0], props)
    ensures Raw(Scan(Coalesce(tokens), props).0) == Raw(Scan(tokens, props).0)
    ensures Scan(Coalesce(tokens), props).1 == Scan(tokens, props).1
    decreases |tokens|, 0
  {
    var t, rest := tokens[0], Coalesce(tokens[1..]);
    assert Coalesce(tokens) == [t] + rest && ([t] + rest)[1..] == rest;
    if t.StartTag? && t.name == "title" {
      AfterTitleCoalesced(tokens[1..]);
      ScanCoalesced(AfterTitle(tokens[1..]), props);
    } else {
      ScanCoalesced(tokens[1..], props);
    }
  }

  /** Reading a rewritten head back gives the tokens it was written from, up to joining neighbouring texts. */
  ghost predicate ReadsBack(tokenize: string -> seq<Token>, text: string, props: Properties) {
    var kept := Scan(tokenize(text), props).0;
    tokenize(Raw(kept)) == Coalesce(kept)
  }

  ghost predicate AllReadBack(tokenize: string -> seq<Token>, texts: seq<string>, props: Properties) {
    texts != [] ==>
      var n := |texts| - 1;
      ReadsBack(tokenize, texts[n], props) && AllReadBack(tokenize, texts[..n], Scan(tokenize(texts[n]), props).1)
  }

  lemma DedupTextIdempotent(text: string, props: Properties, tokenize: string -> seq<Token>)
    requires ReadsBack(tokenize, text, props)
    ensures DedupText(DedupText(text, props, tokenize).0, props, tokenize) == DedupText(text, props, tokenize)
  {
    var kept := Scan(tokenize(text), props).0;
    ScanIdempotent(tokenize(text), props);
    ScanCoalesced(kept, props);
  }

  /** Running the backward pass again from scratch changes no head, not even one of which nothing survived. */
  lemma {:induction false} DedupTextsIdempotent(texts: seq<string>, props: Properties, tokenize: string -> seq<Token>)
    requires AllReadBack(tokenize, texts, props)
    ensures DedupTexts(DedupTexts(texts, props, tokenize).0, props, tokenize) == DedupTexts(texts, props, tokenize)
  {
    if texts != [] {
      var n := |texts| - 1;
      var (last, props') := DedupText(texts[n], props, tokenize);
      var others := DedupTexts(texts[..n], props', tokenize).0;
      DedupTextIdempotent(texts[n], props, tokenize);
      DedupTextsIdempotent(texts[..n], props', tokenize);
      assert (others + [last])[..n] == others;
    }
  }

  // ---------------------------------------------------------------------------------- what is left alone

  function TokensOf(texts: seq<string>, tokenize: string -> seq<Token>): seq<seq<Token>> {
    seq(|texts|, i requires 0 <= i < |texts| => tokenize(texts[i]))
  }

  /** The pass on texts writes out the result of the pass on tokens, if tokens cover the text they are read from. */
  lemma {:induction false} TextsAreHeads(texts: seq<string>, props: Properties, tokenize: string -> seq<Token>, i: nat)
    requires i < |texts| && forall text :: text in texts ==> Raw(tokenize(text)) == text
    ensures DedupTexts(texts, props, tokenize).0[i] == Raw(DedupHeads(TokensOf(texts, tokenize), props).0[i])
  {
    var n := |texts| - 1;
    assert TokensOf(texts, tokenize)[..n] == TokensOf(texts[..n], tokenize);
    if i < n {
      TextsAreHeads(texts[..n], Scan(tokenize(texts[n]), props).1, tokenize, i);
    }
  }

  /** Everything but tags under removal and the content of titles. */
  function Others(tokens: seq<Token>): seq<Token>
    decreases |tokens|
  {
    if tokens == [] then []
    else if tokens[0].StartTag? && tokens[0].name == "title" then Others(AfterTitle(tokens[1..]))
    else if IsNamed(tokens[0], "title") || IsNamed(tokens[0], "meta") || IsNamed(tokens[0], "link") then Others(tokens[1..])
    else [tokens[0]] + Others(tokens[1..])
  }

  lemma {:induction false} TitleScanned(tokens: seq<Token>, props: Properties)
    requires TitleText(tokens)
    ensures AfterTitle(Scan(tokens, props).0) == Scan(AfterTitle(tokens), TitleProps(tokens, props)).0
  {
    if tokens != [] {
      var t := tokens[0];
      if !(t.EndTag? && t.name == "title") {
        if Keeps(t, props) {
          TitleScanned(tokens[1..], Set(t, props));
          assert Scan(tokens, props).0[1..] == Scan(tokens[1..], Set(t, props)).0;
        } else {
          TitleScanned(tokens[1..], props);
        }
      } else {
        assert Scan(tokens, props).0[1..] == Scan(tokens[1..], props).0;
      }
    }
  }

  function TitleProps(tokens: seq<Token>, props: Properties): Properties {
    if tokens == [] || (tokens[0].EndTag? && tokens[0].name == "title") then props
    else TitleProps(tokens[1..], if Keeps(tokens[0], props) then Set(tokens[0], props) else props)
  }

  /** Outside titles, everything that is no meta, link or title tag stays, in its order. */
  lemma {:induction false} OthersStay(tokens: seq<Token>, props: Properties)
    requires WellTitled(tokens)
    ensures Others(Scan(tokens, props).0) == Others(tokens)
    decreases |tokens|
  {
    if tokens != [] {
      var t := tokens[0];
      if t.StartTag? && t.name == "title" {
        TitleSkipped(tokens[1..], "title");
        if Keeps(t, props) {
          TitleScanned(tokens[1..], Set(t, props));
          assert Scan(tokens, props).0[1..] == Scan(tokens[1..], Set(t, props)).0;
          OthersStay(AfterTitle(tokens[1..]), TitleProps(tokens[1..], Set(t, props)));
        } else {
          OthersStay(AfterTitle(tokens[1..]), props);
        }
      } else if Keeps(t, props) {
        OthersStay(tokens[1..], Set(t, props));
        assert Scan(tokens, props).0[1..] == Scan(tokens[1..], Set(t, props)).0;
      } else {
        OthersStay(tokens[1..], props);
      }
    }
  }
}
