/** Executing fragments recursively: the state-passing execution of the merger, and the page as a pure unfolding. */
module Rendering {
  import opened Strings
  import opened Html
  import opened Templating
  import opened FragmentIndex

  const LAYOUT_FRAGMENT_NAME := "layout"

  datatype Fragment = Fragment(content: string, stylesheets: seq<Stylesheet>)

  type Index = map<string, Fragment>

  function TreeOf(f: Fragment): Template {
    Parse(f.content)
  }

  /** The include graph has no cycle: along every include the rank decreases. */
  ghost predicate Ranked(index: Index, rank: string -> nat) {
    forall name, callee ::
      (Resolve(index, name).Some? && callee in Calls(TreeOf(Resolve(index, name).value)) && Resolve(index, callee).Some?)
      ==> rank(callee) < rank(name)
  }

  ghost function Height(index: Index, rank: string -> nat, name: string): nat {
    if Resolve(index, name).Some? then 1 + rank(name) else 0
  }

  // ----------------------------------------------------------------------------- state-passing execution

  /** The buffer a fragment is written to, and the stylesheets collected so far. */
  datatype Page = Page(out: string, sheets: seq<Stylesheet>)

  function WriteTo(page: Page, text: string): Page {
    page.(out := page.out + text)
  }

  function CollectStylesheets(page: Page, f: Fragment): Page {
    page.(sheets := page.sheets + f.stylesheets)
  }

  /** The closure of generateExecutionFunction, by name. */
  function ExecuteFragment(index: Index, env: Env, ghost rank: string -> nat, name: string, page: Page): (Page, Reply)
    requires Ranked(index, rank)
    decreases Height(index, rank, name)
  {
    match Resolve(index, name)
    case None => (page, Failed(FragmentMissing(name)))
    case Some(f) =>
      var callees := Calls(TreeOf(f));
      Denote(f.content, TreeOf(f), env, (p: Page, text: string) => WriteTo(p, text),
             (callee: string, p: Page) requires callee in callees => ExecuteFragment(index, env, rank, callee, p),
             CollectStylesheets(page, f))
  }

  // -------------------------------------------------------------------------------------- pure unfolding

  /** What an execution adds to the page, whatever the page was before. */
  datatype Unfolding = Unfolding(out: string, sheets: seq<Stylesheet>, reply: Reply) {
    function Before(next: Unfolding): Unfolding {
      Unfolding(out + next.out, sheets + next.sheets, next.reply)
    }
    function On(page: Page): (Page, Reply) {
      (Page(page.out + out, page.sheets + sheets), reply)
    }
  }

  function Plain(text: string): Unfolding {
    Unfolding(text, [], Ok)
  }

  function UnfoldNode(node: Node, env: Env, unfold: string --> Unfolding): Unfolding
    requires forall callee :: callee in CallsOf(node) ==> unfold.requires(callee)
  {
    match node
    case Literal(text) => Plain(text)
    case Placeholder(body) =>
      (match Classify(body)
       case Include(name) => unfold(name)
       case Variable(key) =>
         (match Lookup(env.data, key)
          case None => Plain("")
          case Some(d) => Plain(env.format(d))))
    // output and stylesheets of an include that fails later on are kept, in front of the alternative text
    case Block(body, alt) =>
      var u := unfold(TrimSpace(body));
      if u.reply.Failed? then Unfolding(u.out + alt, u.sheets, Ok) else u
    case Fused(body) =>
      var u := unfold(TrimSpace(body));
      if u.reply.Ok? then u else u.(reply := Panicked)
  }

  function UnfoldTree(text: string, template: Template, env: Env, unfold: string --> Unfolding): Unfolding
    requires forall callee :: callee in Calls(template) ==> unfold.requires(callee)
    decreases template
  {
    match template
    case End(ending) => Unfolding("", [], ErrorOf(ending, text))
    case Then(node, next) =>
      var u := UnfoldNode(node, env, unfold);
      if u.reply.Ok? then u.Before(UnfoldTree(text, next, env, unfold)) else u
  }

  function Unfold(index: Index, env: Env, ghost rank: string -> nat, name: string): Unfolding
    requires Ranked(index, rank)
    decreases Height(index, rank, name)
  {
    match Resolve(index, name)
    case None => Unfolding("", [], Failed(FragmentMissing(name)))
    case Some(f) =>
      var callees := Calls(TreeOf(f));
      Unfolding("", f.stylesheets, Ok).Before(
        UnfoldTree(f.content, TreeOf(f), env, callee requires callee in callees => Unfold(index, env, rank, callee)))
  }

  /** A head or tail, which is executed without looking it up. */
  function UnfoldFragment(index: Index, env: Env, ghost rank: string -> nat, f: Fragment): Unfolding
    requires Ranked(index, rank)
  {
    Unfolding("", f.stylesheets, Ok).Before(
      UnfoldTree(f.content, TreeOf(f), env, callee => Unfold(index, env, rank, callee)))
  }

  /** Execution on any page appends the unfolding and returns its reply, provided the nested executions do. */
  lemma {:induction false} DenoteIsUnfolding(text: string, template: Template, env: Env, nested: (string, Page) --> (Page, Reply),
                                             unfold: string --> Unfolding, page: Page)
    requires Callable(Calls(template), nested)
    requires forall callee :: callee in Calls(template) ==> unfold.requires(callee)
    requires forall callee, p :: callee in Calls(template) ==> nested(callee, p) == unfold(callee).On(p)
    ensures Denote(text, template, env, (p: Page, x: string) => WriteTo(p, x), nested, page)
         == UnfoldTree(text, template, env, unfold).On(page)
    decreases template
  {
    match template {
      case End(ending) =>
        assert page.out + "" == page.out && page.sheets + [] == page.sheets;
      case Then(node, next) =>
        var write := (p: Page, x: string) => WriteTo(p, x);
        var u := UnfoldNode(node, env, unfold);
        assert DenoteNode(node, env, write, nested, page) == u.On(page) by {
          DenoteNodeIsUnfolding(node, env, nested, unfold, page);
        }
        if u.reply.Ok? {
          var rest := UnfoldTree(text, next, env, unfold);
          DenoteIsUnfolding(text, next, env, nested, unfold, u.On(page).0);
          OnBefore(u, rest, page);
        }
    }
  }

  lemma OnBefore(u: Unfolding, next: Unfolding, page: Page)
    ensures u.Before(next).On(page) == next.On(u.On(page).0)
  {
    assert page.out + (u.out + next.out) == (page.out + u.out) + next.out;
    assert page.sheets + (u.sheets + next.sheets) == (page.sheets + u.sheets) + next.sheets;
  }

  lemma DenoteNodeIsUnfolding(node: Node, env: Env, nested: (string, Page) --> (Page, Reply),
                              unfold: string --> Unfolding, page: Page)
    requires Callable(CallsOf(node), nested)
    requires forall callee :: callee in CallsOf(node) ==> unfold.requires(callee)
    requires forall callee, p :: callee in CallsOf(node) ==> nested(callee, p) == unfold(callee).On(p)
    ensures DenoteNode(node, env, (p: Page, x: string) => WriteTo(p, x), nested, page)
         == UnfoldNode(node, env, unfold).On(page)
  {
    assert page.sheets + [] == page.sheets && page.out + "" == page.out;
    match node {
      case Block(body, alt) =>
        var u := unfold(TrimSpace(body));
        assert (page.out + u.out) + alt == page.out + (u.out + alt);
      case _ =>
    }
  }

  /** Rendering a fragment by name is its unfolding, on every page; in particular it terminates. */
  lemma {:induction false} ExecuteFragmentUnfolds(index: Index, env: Env, rank: string -> nat, name: string, page: Page)
    requires Ranked(index, rank)
    ensures ExecuteFragment(index, env, rank, name, page) == Unfold(index, env, rank, name).On(page)
    decreases Height(index, rank, name)
  {
    match Resolve(index, name) {
      case None =>
        assert page.out + "" == page.out && page.sheets + [] == page.sheets;
      case Some(f) =>
        var callees := Calls(TreeOf(f));
        var nested := (callee: string, p: Page) requires callee in callees => ExecuteFragment(index, env, rank, callee, p);
        var unfold := callee requires callee in callees => Unfold(index, env, rank, callee);
        forall callee, p | callee in callees ensures nested(callee, p) == unfold(callee).On(p) {
          ExecuteFragmentUnfolds(index, env, rank, callee, p);
        }
        DenoteIsUnfolding(f.content, TreeOf(f), env, nested, unfold, CollectStylesheets(page, f));
        var own := Unfolding("", f.stylesheets, Ok);
        assert own.On(page).0 == CollectStylesheets(page, f) by { assert page.out + "" == page.out; }
        OnBefore(own, UnfoldTree(f.content, TreeOf(f), env, unfold), page);
    }
  }

  /** The same for a head or tail. */
  lemma FragmentUnfolds(index: Index, env: Env, rank: string -> nat, f: Fragment, page: Page)
    requires Ranked(index, rank)
    ensures Denote(f.content, TreeOf(f), env, (p: Page, text: string) => WriteTo(p, text),
                   (callee: string, p: Page) => ExecuteFragment(index, env, rank, callee, p), CollectStylesheets(page, f))
         == UnfoldFragment(index, env, rank, f).On(page)
  {
    var nested := (callee: string, p: Page) => ExecuteFragment(index, env, rank, callee, p);
    var unfold := callee => Unfold(index, env, rank, callee);
    forall callee, p ensures nested(callee, p) == unfold(callee).On(p) {
      ExecuteFragmentUnfolds(index, env, rank, callee, p);
    }
    DenoteIsUnfolding(f.content, TreeOf(f), env, nested, unfold, CollectStylesheets(page, f));
    var own := Unfolding("", f.stylesheets, Ok);
    assert own.On(page).0 == CollectStylesheets(page, f) by { assert page.out + "" == page.out; }
    OnBefore(own, UnfoldTree(f.content, TreeOf(f), env, unfold), page);
  }
}
