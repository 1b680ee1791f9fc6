/** When rendering a fragment fails, and in which order it collects stylesheets. */
module RenderingLaws {
  import opened Strings
  import opened Html
  import opened Templating
  import opened FragmentIndex
  import opened Rendering
  import opened TemplatePanics

  function EndingOf(template: Template): Ending {
    match template
    case End(ending) => ending
    case Then(_, next) => EndingOf(next)
  }

  function RequiredOf(node: Node): set<string> {
    if node.Placeholder? && Classify(node.body).Include? then {Classify(node.body).name} else {}
  }

  /** The fragments a template cannot do without. */
  function Required(template: Template): set<string> {
    match template
    case End(_) => {}
    case Then(node, next) => RequiredOf(node) + Required(next)
  }

  ghost predicate AllUnfused(index: Index) {
    forall name :: Resolve(index, name).Some? ==> Unfused(TreeOf(Resolve(index, name).value))
  }

  lemma {:induction false} RequiredAreCalled(template: Template)
    ensures Required(template) <= Calls(template)
  {
    if template.Then? { RequiredAreCalled(template.next); }
  }

  /** The fragment is missing, malformed, or needs one that fails. */
  ghost predicate Fails(index: Index, rank: string -> nat, name: string)
    requires Ranked(index, rank)
    decreases Height(index, rank, name)
  {
    match Resolve(index, name)
    case None => true
    case Some(f) =>
      || EndingOf(TreeOf(f)) != Complete
      || exists callee :: callee in Required(TreeOf(f)) && callee in Calls(TreeOf(f)) && Fails(index, rank, callee)
  }

  lemma {:induction false} UnfoldTreeFails(text: string, template: Template, env: Env, unfold: string --> Unfolding)
    requires forall callee :: callee in Calls(template) ==> unfold.requires(callee)
    requires forall callee :: callee in Calls(template) ==> !unfold(callee).reply.Panicked?
    requires Unfused(template)
    ensures Required(template) <= Calls(template)
    ensures !UnfoldTree(text, template, env, unfold).reply.Panicked?
    ensures UnfoldTree(text, template, env, unfold).reply.Failed? <==>
            || EndingOf(template) != Complete
            || exists callee :: callee in Required(template) && unfold(callee).reply.Failed?
    decreases template
  {
    RequiredAreCalled(template);
    if template.Then? {
      UnfoldTreeFails(text, template.next, env, unfold);
    }
  }

  /** Rendering by name fails exactly when the fragment is missing, malformed or needs one that fails; optional includes,
      meta data and stylesheets have no say in it, and it never panics. */
  lemma {:induction false} UnfoldFails(index: Index, env: Env, rank: string -> nat, name: string)
    requires Ranked(index, rank) && AllUnfused(index)
    ensures !Unfold(index, env, rank, name).reply.Panicked?
    ensures Unfold(index, env, rank, name).reply.Failed? <==> Fails(index, rank, name)
    decreases Height(index, rank, name)
  {
    match Resolve(index, name) {
      case None =>
      case Some(f) =>
        var callees := Calls(TreeOf(f));
        var unfold := callee requires callee in callees => Unfold(index, env, rank, callee);
        forall callee | callee in callees
          ensures !unfold(callee).reply.Panicked? && (unfold(callee).reply.Failed? <==> Fails(index, rank, callee))
        {
          UnfoldFails(index, env, rank, callee);
        }
        UnfoldTreeFails(f.content, TreeOf(f), env, unfold);
    }
  }

  // ------------------------------------------------------------------------------- with fused blocks

  datatype Verdict = Succeeding | Failing | Panicking

  function VerdictOn(reply: Reply): Verdict {
    match reply
    case Ok => Succeeding
    case Failed(_) => Failing
    case Panicked => Panicking
  }

  /** What a node comes to, given what the fragments it calls come to. */
  function NodeVerdict(node: Node, verdict: string --> Verdict): Verdict
    requires forall callee :: callee in CallsOf(node) ==> verdict.requires(callee)
  {
    match node
    case Literal(_) => Succeeding
    case Placeholder(body) => (match Classify(body) case Include(name) => verdict(name) case Variable(_) => Succeeding)
    case Block(body, _) => if verdict(TrimSpace(body)).Panicking? then Panicking else Succeeding
    case Fused(body) => if verdict(TrimSpace(body)).Succeeding? then Succeeding else Panicking
  }

  function TreeVerdict(template: Template, verdict: string --> Verdict): Verdict
    requires forall callee :: callee in Calls(template) ==> verdict.requires(callee)
    decreases template
  {
    match template
    case End(ending) => if ending == Complete then Succeeding else Failing
    case Then(node, next) => if NodeVerdict(node, verdict).Succeeding? then TreeVerdict(next, verdict) else NodeVerdict(node, verdict)
  }

  /** Decided by the include graph alone. */
  ghost function FragmentVerdict(index: Index, rank: string -> nat, name: string): Verdict
    requires Ranked(index, rank)
    decreases Height(index, rank, name)
  {
    match Resolve(index, name)
    case None => Failing
    case Some(f) =>
      var callees := Calls(TreeOf(f));
      TreeVerdict(TreeOf(f), callee requires callee in callees => FragmentVerdict(index, rank, callee))
  }

  lemma {:induction false} UnfoldTreeVerdict(text: string, template: Template, env: Env, unfold: string --> Unfolding, verdict: string --> Verdict)
    requires forall callee :: callee in Calls(template) ==> unfold.requires(callee) && verdict.requires(callee)
    requires forall callee :: callee in Calls(template) ==> VerdictOn(unfold(callee).reply) == verdict(callee)
    ensures VerdictOn(UnfoldTree(text, template, env, unfold).reply) == TreeVerdict(template, verdict)
    decreases template
  {
    if template.Then? { UnfoldTreeVerdict(text, template.next, env, unfold, verdict); }
  }

  /** Whatever the templates hold, whether rendering succeeds, fails or panics is decided by the include graph: by the first
      placeholder in order of execution that does not succeed. Meta data, formatting and stylesheets have no say in it. */
  lemma {:induction false} UnfoldVerdict(index: Index, env: Env, rank: string -> nat, name: string)
    requires Ranked(index, rank)
    ensures VerdictOn(Unfold(index, env, rank, name).reply) == FragmentVerdict(index, rank, name)
    decreases Height(index, rank, name)
  {
    match Resolve(index, name) {
      case None =>
      case Some(f) =>
        var callees := Calls(TreeOf(f));
        var unfold := callee requires callee in callees => Unfold(index, env, rank, callee);
        var verdict := callee requires callee in callees => FragmentVerdict(index, rank, callee);
        forall callee | callee in callees ensures VerdictOn(unfold(callee).reply) == verdict(callee) {
          UnfoldVerdict(index, env, rank, callee);
        }
        UnfoldTreeVerdict(f.content, TreeOf(f), env, unfold, verdict);
    }
  }

  // ------------------------------------------------------------------------------- order of execution

  /** The fragments executed below a node and a tree, in order; execution stops where the unfolding does. */
  function ExecutedBy(node: Node, executed: string --> seq<Fragment>): seq<Fragment>
    requires forall callee :: callee in CallsOf(node) ==> executed.requires(callee)
  {
    match node
    case Literal(_) => []
    case Placeholder(body) => (match Classify(body) case Include(name) => executed(name) case Variable(_) => [])
    case Block(body, _) => executed(TrimSpace(body))
    case Fused(body) => executed(TrimSpace(body))
  }

  function ExecutedIn(template: Template, env: Env, unfold: string --> Unfolding, executed: string --> seq<Fragment>): seq<Fragment>
    requires forall callee :: callee in Calls(template) ==> unfold.requires(callee) && executed.requires(callee)
    decreases template
  {
    match template
    case End(_) => []
    case Then(node, next) =>
      ExecutedBy(node, executed) +
      if UnfoldNode(node, env, unfold).reply.Ok? then ExecutedIn(next, env, unfold, executed) else []
  }

  /** The fragments executed for a name, each before the ones it includes. */
  function Executed(index: Index, env: Env, ghost rank: string -> nat, name: string): seq<Fragment>
    requires Ranked(index, rank)
    decreases Height(index, rank, name)
  {
    match Resolve(index, name)
    case None => []
    case Some(f) =>
      var callees := Calls(TreeOf(f));
      [f] + ExecutedIn(TreeOf(f), env, callee requires callee in callees => Unfold(index, env, rank, callee),
                       callee requires callee in callees => Executed(index, env, rank, callee))
  }

  function SheetsOf(fragments: seq<Fragment>): seq<Stylesheet> {
    if fragments == [] then [] else fragments[0].stylesheets + SheetsOf(fragments[1..])
  }

  lemma {:induction false} SheetsOfConcat(a: seq<Fragment>, b: seq<Fragment>)
    ensures SheetsOf(a + b) == SheetsOf(a) + SheetsOf(b)
  {
    if a == [] {
      assert a + b == b;
    } else {
      assert (a + b)[1..] == a[1..] + b;
      SheetsOfConcat(a[1..], b);
    }
  }

  lemma {:induction false} TreeSheets(text: string, template: Template, env: Env, unfold: string --> Unfolding, executed: string --> seq<Fragment>)
    requires forall callee :: callee in Calls(template) ==> unfold.requires(callee) && executed.requires(callee)
    requires forall callee :: callee in Calls(template) ==> unfold(callee).sheets == SheetsOf(executed(callee))
    ensures UnfoldTree(text, template, env, unfold).sheets == SheetsOf(ExecutedIn(template, env, unfold, executed))
    decreases template
  {
    match template {
      case End(_) =>
      case Then(node, next) =>
        var rest := ExecutedIn(next, env, unfold, executed);
        assert UnfoldNode(node, env, unfold).sheets == SheetsOf(ExecutedBy(node, executed));
        TreeSheets(text, next, env, unfold, executed);
        SheetsOfConcat(ExecutedBy(node, executed), rest);
        assert ExecutedBy(node, executed) + [] == ExecutedBy(node, executed);
    }
  }

  /** The collected stylesheets are those of the executed fragments, in the order of execution. */
  lemma {:induction false} SheetsInExecutionOrder(index: Index, env: Env, rank: string -> nat, name: string)
    requires Ranked(index, rank)
    ensures Unfold(index, env, rank, name).sheets == SheetsOf(Executed(index, env, rank, name))
    decreases Height(index, rank, name)
  {
    match Resolve(index, name) {
      case None =>
      case Some(f) =>
        var callees := Calls(TreeOf(f));
        var unfold := callee requires callee in callees => Unfold(index, env, rank, callee);
        var executed := callee requires callee in callees => Executed(index, env, rank, callee);
        forall callee | callee in callees ensures unfold(callee).sheets == SheetsOf(executed(callee)) {
          SheetsInExecutionOrder(index, env, rank, callee);
        }
        TreeSheets(f.content, TreeOf(f), env, unfold, executed);
        assert ([f] + ExecutedIn(TreeOf(f), env, unfold, executed))[1..] == ExecutedIn(TreeOf(f), env, unfold, executed);
    }
  }
}
