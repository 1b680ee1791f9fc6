/** When a page fails, and which stylesheets it links. */
module ContentMergeLaws {
  import opened Html
  import opened Templating
  import opened StylesheetDeduplication
  import opened Rendering
  import opened RenderingLaws
  import opened TemplatePanics
  import opened ContentMerge

  /** A head or tail is malformed or needs a fragment that fails. */
  ghost predicate FragmentFails(index: Index, rank: string -> nat, f: Fragment)
    requires Ranked(index, rank)
  {
    || EndingOf(TreeOf(f)) != Complete
    || exists callee :: callee in Required(TreeOf(f)) && Fails(index, rank, callee)
  }

  ghost predicate PageFails(index: Index, rank: string -> nat, heads: seq<Fragment>, tails: seq<Fragment>)
    requires Ranked(index, rank)
  {
    || Fails(index, rank, StartFragmentName(index))
    || exists f :: (f in heads || f in tails) && FragmentFails(index, rank, f)
  }

  lemma FragmentFailure(index: Index, env: Env, rank: string -> nat, f: Fragment)
    requires Ranked(index, rank) && AllUnfused(index) && Unfused(TreeOf(f))
    ensures !UnfoldFragment(index, env, rank, f).reply.Panicked?
    ensures UnfoldFragment(index, env, rank, f).reply.Failed? <==> FragmentFails(index, rank, f)
  {
    var unfold := callee => Unfold(index, env, rank, callee);
    forall callee ensures !unfold(callee).reply.Panicked? && (unfold(callee).reply.Failed? <==> Fails(index, rank, callee)) {
      UnfoldFails(index, env, rank, callee);
    }
    UnfoldTreeFails(f.content, TreeOf(f), env, unfold);
  }

  lemma {:induction false} AllFailures(index: Index, env: Env, rank: string -> nat, fragments: seq<Fragment>)
    requires Ranked(index, rank) && AllUnfused(index) && forall f :: f in fragments ==> Unfused(TreeOf(f))
    ensures !UnfoldAll(index, env, rank, fragments).reply.Panicked?
    ensures UnfoldAll(index, env, rank, fragments).reply.Failed? <==> exists f :: f in fragments && FragmentFails(index, rank, f)
  {
    if fragments != [] {
      var n := |fragments| - 1;
      AllFailures(index, env, rank, fragments[..n]);
      FragmentFailure(index, env, rank, fragments[n]);
      assert forall f :: f in fragments <==> f in fragments[..n] || f == fragments[n];
    }
  }

  /** A page is an error exactly when a head, a tail or the start fragment is malformed, missing or needs a fragment that
      fails; failing optional includes never make it one. */
  lemma PageFailure(index: Index, env: Env, rank: string -> nat, heads: seq<Fragment>, tails: seq<Fragment>,
                    attributes: string, collected: seq<Stylesheet>, strategy: Strategy, escape: string -> string)
    requires Ranked(index, rank) && AllUnfused(index)
    requires forall f :: f in heads || f in tails ==> Unfused(TreeOf(f))
    ensures var page := RenderedPage(index, env, rank, heads, tails, attributes, collected, strategy, escape);
            !page.reply.Panicked? && (page.reply.Failed? <==> PageFails(index, rank, heads, tails))
  {
    AllFailures(index, env, rank, heads);
    AllFailures(index, env, rank, tails);
    UnfoldFails(index, env, rank, StartFragmentName(index));
  }

  /** Heads, body and tails in this order; the first that does not succeed decides. */
  ghost function FragmentsVerdict(index: Index, rank: string -> nat, fragments: seq<Fragment>): Verdict
    requires Ranked(index, rank)
  {
    if fragments == [] then Succeeding
    else
      var n := |fragments| - 1;
      var before := FragmentsVerdict(index, rank, fragments[..n]);
      if before.Succeeding? then TreeVerdict(TreeOf(fragments[n]), callee => FragmentVerdict(index, rank, callee)) else before
  }

  ghost function PageVerdict(index: Index, rank: string -> nat, heads: seq<Fragment>, tails: seq<Fragment>): Verdict
    requires Ranked(index, rank)
  {
    if !FragmentsVerdict(index, rank, heads).Succeeding? then FragmentsVerdict(index, rank, heads)
    else if !FragmentVerdict(index, rank, StartFragmentName(index)).Succeeding? then FragmentVerdict(index, rank, StartFragmentName(index))
    else FragmentsVerdict(index, rank, tails)
  }

  lemma {:induction false} UnfoldAllVerdict(index: Index, env: Env, rank: string -> nat, fragments: seq<Fragment>)
    requires Ranked(index, rank)
    ensures VerdictOn(UnfoldAll(index, env, rank, fragments).reply) == FragmentsVerdict(index, rank, fragments)
  {
    if fragments != [] {
      var n := |fragments| - 1;
      var f := fragments[n];
      UnfoldAllVerdict(index, env, rank, fragments[..n]);
      var unfold := callee => Unfold(index, env, rank, callee);
      var verdict := callee => FragmentVerdict(index, rank, callee);
      forall callee ensures VerdictOn(unfold(callee).reply) == verdict(callee) { UnfoldVerdict(index, env, rank, callee); }
      UnfoldTreeVerdict(f.content, TreeOf(f), env, unfold, verdict);
    }
  }

  /** Whether a page succeeds, fails or panics, whatever its templates hold. */
  lemma RenderedPageVerdict(index: Index, env: Env, rank: string -> nat, heads: seq<Fragment>, tails: seq<Fragment>,
                            attributes: string, collected: seq<Stylesheet>, strategy: Strategy, escape: string -> string)
    requires Ranked(index, rank)
    ensures VerdictOn(RenderedPage(index, env, rank, heads, tails, attributes, collected, strategy, escape).reply)
         == PageVerdict(index, rank, heads, tails)
  {
    UnfoldAllVerdict(index, env, rank, heads);
    UnfoldAllVerdict(index, env, rank, tails);
    UnfoldVerdict(index, env, rank, StartFragmentName(index));
  }

  // ------------------------------------------------------------------------------------- stylesheets

  function ExecutedFor(index: Index, env: Env, ghost rank: string -> nat, f: Fragment): seq<Fragment>
    requires Ranked(index, rank)
  {
    [f] + ExecutedIn(TreeOf(f), env, callee => Unfold(index, env, rank, callee), callee => Executed(index, env, rank, callee))
  }

  function ExecutedForAll(index: Index, env: Env, ghost rank: string -> nat, fragments: seq<Fragment>): seq<Fragment>
    requires Ranked(index, rank)
  {
    if fragments == [] then []
    else ExecutedForAll(index, env, rank, fragments[..|fragments| - 1]) + ExecutedFor(index, env, rank, fragments[|fragments| - 1])
  }

  lemma FragmentSheets(index: Index, env: Env, rank: string -> nat, f: Fragment)
    requires Ranked(index, rank)
    ensures UnfoldFragment(index, env, rank, f).sheets == SheetsOf(ExecutedFor(index, env, rank, f))
  {
    var unfold := callee => Unfold(index, env, rank, callee);
    var executed := callee => Executed(index, env, rank, callee);
    forall callee ensures unfold(callee).sheets == SheetsOf(executed(callee)) {
      SheetsInExecutionOrder(index, env, rank, callee);
    }
    TreeSheets(f.content, TreeOf(f), env, unfold, executed);
    assert ([f] + ExecutedIn(TreeOf(f), env, unfold, executed))[1..] == ExecutedIn(TreeOf(f), env, unfold, executed);
  }

  lemma {:induction false} AllSheets(index: Index, env: Env, rank: string -> nat, fragments: seq<Fragment>)
    requires Ranked(index, rank) && UnfoldAll(index, env, rank, fragments).reply.Ok?
    ensures UnfoldAll(index, env, rank, fragments).sheets == SheetsOf(ExecutedForAll(index, env, rank, fragments))
  {
    if fragments != [] {
      var n := |fragments| - 1;
      AllSheets(index, env, rank, fragments[..n]);
      FragmentSheets(index, env, rank, fragments[n]);
      SheetsOfConcat(ExecutedForAll(index, env, rank, fragments[..n]), ExecutedFor(index, env, rank, fragments[n]));
    }
  }

  lemma BodySheets(index: Index, env: Env, rank: string -> nat, tails: seq<Fragment>)
    requires Ranked(index, rank) && UnfoldBody(index, env, rank, tails).reply.Ok?
    ensures UnfoldBody(index, env, rank, tails).sheets
         == SheetsOf(Executed(index, env, rank, StartFragmentName(index)) + ExecutedForAll(index, env, rank, tails))
  {
    AllSheets(index, env, rank, tails);
    SheetsInExecutionOrder(index, env, rank, StartFragmentName(index));
    SheetsOfConcat(Executed(index, env, rank, StartFragmentName(index)), ExecutedForAll(index, env, rank, tails));
  }

  /** The stylesheets of the executed fragments: heads first, then the body in the order of execution, then the tails. */
  function PageSheets(index: Index, env: Env, ghost rank: string -> nat, heads: seq<Fragment>, tails: seq<Fragment>): seq<Stylesheet>
    requires Ranked(index, rank)
  {
    SheetsOf(ExecutedForAll(index, env, rank, heads)
             + (Executed(index, env, rank, StartFragmentName(index)) + ExecutedForAll(index, env, rank, tails)))
  }

  lemma CollectedSheets(index: Index, env: Env, rank: string -> nat, heads: seq<Fragment>, tails: seq<Fragment>, collected: seq<Stylesheet>)
    requires Ranked(index, rank) && UnfoldAll(index, env, rank, heads).reply.Ok? && UnfoldBody(index, env, rank, tails).reply.Ok?
    ensures collected + UnfoldAll(index, env, rank, heads).sheets + UnfoldBody(index, env, rank, tails).sheets
         == collected + PageSheets(index, env, rank, heads, tails)
  {
    AllSheets(index, env, rank, heads);
    BodySheets(index, env, rank, tails);
    SheetsOfConcat(ExecutedForAll(index, env, rank, heads),
                   Executed(index, env, rank, StartFragmentName(index)) + ExecutedForAll(index, env, rank, tails));
  }

  /** A page links the stylesheets collected before and its own, and with the simple strategy only the first one for each target. */
  lemma LinkedStylesheets(index: Index, env: Env, rank: string -> nat, heads: seq<Fragment>, tails: seq<Fragment>,
                          attributes: string, collected: seq<Stylesheet>, strategy: Strategy, escape: string -> string)
    requires Ranked(index, rank)
    ensures var page := RenderedPage(index, env, rank, heads, tails, attributes, collected, strategy, escape);
            page.reply.Ok? ==> page.sheets == Deduplicated(strategy, collected + PageSheets(index, env, rank, heads, tails))
  {
    if RenderedPage(index, env, rank, heads, tails, attributes, collected, strategy, escape).reply.Ok? {
      CollectedSheets(index, env, rank, heads, tails, collected);
    }
  }

  /** A page that fails loses nothing of what was collected before. */
  lemma FailureKeepsStylesheets(index: Index, env: Env, rank: string -> nat, heads: seq<Fragment>, tails: seq<Fragment>,
                                attributes: string, collected: seq<Stylesheet>, strategy: Strategy, escape: string -> string)
    requires Ranked(index, rank)
    ensures var page := RenderedPage(index, env, rank, heads, tails, attributes, collected, strategy, escape);
            !page.reply.Ok? ==> collected <= page.sheets
  {
    assert collected <= collected + UnfoldAll(index, env, rank, heads).sheets;
    assert collected <= collected + UnfoldAll(index, env, rank, heads).sheets + UnfoldBody(index, env, rank, tails).sheets;
  }
}
