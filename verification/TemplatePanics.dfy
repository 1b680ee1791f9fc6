/** When executing a template can panic: a block whose two markers share a section sign has no room for alternative text. */
module TemplatePanics {
  import opened Strings
  import opened Templating
  import opened TemplatingSyntax

  /** No block of the template shares a section sign between its markers. */
  predicate Unfused(template: Template) {
    match template
    case End(_) => true
    case Then(node, next) => !node.Fused? && Unfused(next)
  }

  /** Without such a block a panic can only come from a nested call. */
  lemma {:induction false} UnfusedNeverPanics<S(!new)>(text: string, template: Template, env: Env, write: (S, string) -> S,
                                                       nested: (string, S) --> (S, Reply), s: S)
    requires Unfused(template) && Callable(Calls(template), nested)
    requires forall name, x :: name in Calls(template) ==> !nested(name, x).1.Panicked?
    ensures !Denote(text, template, env, write, nested, s).1.Panicked?
    decreases template
  {
    match template {
      case End(_) =>
      case Then(node, next) =>
        DenoteThen(text, node, next, env, write, nested, s);
        var (s', reply) := DenoteNode(node, env, write, nested, s);
        if reply.Ok? { UnfusedNeverPanics(text, next, env, write, nested, s'); }
    }
  }

  /** Executors that may do anything but panic, over a state of their own. */
  type Executor = (string, nat) -> (nat, Reply)

  ghost predicate Quiet(nested: Executor) {
    forall name, n :: !nested(name, n).1.Panicked?
  }

  function Outcome(text: string, template: Template, env: Env, nested: Executor, n: nat): Reply {
    Denote(text, template, env, (m: nat, _: string) => m, nested, n).1
  }

  /** Counts its calls, and fails the one with number k. */
  function FailsAt(k: nat): Executor {
    (name: string, n: nat) => (n + 1, if n == k then Failed(FragmentMissing(name)) else Ok)
  }

  lemma {:induction false} FusedCall(text: string, template: Template, env: Env, n: nat) returns (k: nat)
    requires !Unfused(template)
    ensures n <= k && Outcome(text, template, env, FailsAt(k), n).Panicked?
    decreases template
  {
    var node := template.node;
    if node.Fused? {
      k := n;
    } else {
      var m := DenoteNode(node, env, (m: nat, _: string) => m, FailsAt(n + 1), n).0;
      k := FusedCall(text, template.next, env, if m <= n then n else n + 1);
    }
  }

  /** A template never panics, whatever its nested executor does short of panicking, if and only if no block is fused. */
  lemma PanicsExactly(text: string, template: Template, env: Env)
    ensures Unfused(template) <==> forall nested: Executor, n: nat :: Quiet(nested) ==> !Outcome(text, template, env, nested, n).Panicked?
  {
    if Unfused(template) {
      forall nested: Executor, n: nat | Quiet(nested) ensures !Outcome(text, template, env, nested, n).Panicked? {
        UnfusedNeverPanics(text, template, env, (m: nat, _: string) => m, nested, n);
      }
    } else {
      var k := FusedCall(text, template, env, 0);
      assert Quiet(FailsAt(k)) && Outcome(text, template, env, FailsAt(k), 0).Panicked?;
    }
  }

  lemma ShortestBody(body: string)
    requires body == " a"
    ensures TrimSpace(body) == "a" && Closed(body)
  {
    assert body == " " + "a" + "";
    TrimSpacePadded(" ", "a", "");
    AtEnd(body, Index(body, PLACEHOLDER_END));
    IndexIsFirst(body, PLACEHOLDER_END);
  }

  lemma FusedPanics<S(!new)>(text: string, body: string, env: Env, write: (S, string) -> S, nested: (string, S) -> (S, Reply), s: S)
    requires nested(TrimSpace(body), s).1.Failed?
    ensures Denote(text, Then(Fused(body), End(Complete)), env, write, nested, s).1.Panicked?
  {
  }

  lemma ShortestTree(body: string)
    requires body == " a"
    ensures Parse("\U{A7}[#> a]\U{A7}[/a]\U{A7}") == Then(Fused(body), End(Complete)) && TrimSpace(body) == "a"
  {
    var c := Closing(body);
    ShortestBody(body);
    assert c == "\U{A7}[/a]\U{A7}" && c[1..] == "[/a]\U{A7}";
    assert Opening(body) + c[1..] + "" == "\U{A7}[#> a]\U{A7}[/a]\U{A7}";
    ParsePrint(Then(Fused(body), End(Complete)));
  }

  /** The shortest example. */
  lemma SharedSectionSign<S(!new)>(env: Env, write: (S, string) -> S, nested: (string, S) -> (S, Reply), s: S)
    requires nested("a", s).1.Failed?
    ensures var text := "\U{A7}[#> a]\U{A7}[/a]\U{A7}";
            Parse(text) == Then(Fused(" a"), End(Complete)) && Denote(text, Parse(text), env, write, nested, s).1.Panicked?
  {
    var body := " a";
    ShortestTree(body);
    FusedPanics("\U{A7}[#> a]\U{A7}[/a]\U{A7}", body, env, write, nested, s);
  }
}
