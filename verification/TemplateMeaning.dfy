/** What the placeholder language comes to, with its markers written out: variables, alternative texts, plain text and errors. */
module TemplateMeaning {
  import opened Wrappers
  import opened Strings
  import opened Templating
  import opened TemplatingSyntax
  import opened Includes

  // ------------------------------------------------------------------------------------- looking up

  /** One step down from a value: an entry of a tree, or a parameter of a query, which is empty if it has no value. */
  ghost predicate IsChild(v: Value, part: string, w: Value) {
    || (v.Tree? && part in v.entries && w == v.entries[part])
    || (v.Query? && part in v.params && |v.params[part]| > 0 && w == Value.Text(v.params[part][0]))
    || (v.Query? && (part !in v.params || |v.params[part]| == 0) && w == Value.Text(""))
  }

  /** The values passed on the way from the first to the last. */
  ghost predicate IsWay(way: seq<Value>, parts: seq<string>) {
    |way| == |parts| + 1 && forall i :: 0 <= i < |parts| ==> IsChild(way[i], parts[i], way[i + 1])
  }

  ghost predicate Leads(v: Value, parts: seq<string>, w: Value) {
    exists way :: IsWay(way, parts) && way[0] == v && way[|parts|] == w
  }

  lemma {:induction false} WalkIsWay(v: Value, parts: seq<string>) returns (way: seq<Value>)
    requires Walk(v, parts).Some?
    ensures IsWay(way, parts) && way[0] == v && way[|parts|] == Walk(v, parts).value
    decreases |parts|
  {
    if parts == [] {
      way := [v];
    } else {
      var rest := WalkIsWay(Child(v, parts[0]).value, parts[1..]);
      way := [v] + rest;
      forall i | 0 <= i < |parts| ensures IsChild(way[i], parts[i], way[i + 1]) {
        if i > 0 { assert IsChild(rest[i - 1], parts[1..][i - 1], rest[i]); }
      }
    }
  }

  lemma {:induction false} WayIsWalked(way: seq<Value>, parts: seq<string>)
    requires IsWay(way, parts)
    ensures Walk(way[0], parts) == Some(way[|parts|])
    decreases |parts|
  {
    if parts != [] {
      assert IsChild(way[0], parts[0], way[1]);
      forall i | 0 <= i < |parts[1..]| ensures IsChild(way[1..][i], parts[1..][i], way[1..][i + 1]) {
        assert IsChild(way[i + 1], parts[i + 1], way[i + 2]);
      }
      WayIsWalked(way[1..], parts[1..]);
    }
  }

  /** The value of a key: the entry of this name if there is one, and otherwise what the parts of the name lead to, one below the
      other. */
  lemma LookupExactly(entries: map<string, Value>, key: string, w: Value)
    ensures Lookup(Some(entries), key) == Some(w) <==>
            if key in entries then entries[key] == w else Leads(Tree(entries), Split(key, '.'), w)
  {
    if key !in entries {
      var parts := Split(key, '.');
      if Walk(Tree(entries), parts).Some? { var way := WalkIsWay(Tree(entries), parts); }
      if Leads(Tree(entries), parts, w) {
        var way :| IsWay(way, parts) && way[0] == Tree(entries) && way[|parts|] == w;
        WayIsWalked(way, parts);
      }
    }
  }

  /** Without data there are no values. */
  lemma NoData(key: string)
    ensures Lookup(None, key) == None
  {
  }

  // ------------------------------------------------------------------------------------- placeholders

  /** A text that can stand between the markers as the name of a variable. */
  predicate IsKey(key: string) {
    Trimmed(key) && !HasPrefix(key, ">") && !HasPrefix(key, "#>")
  }

  lemma KeyNode(left: string, key: string, right: string)
    requires IsKey(key) && Blank(left) && Blank(right) && Closed(left + key + right)
    ensures WellFormedNode(Placeholder(left + key + right)) && Classify(left + key + right) == Variable(key)
    ensures PrintNode(Placeholder(left + key + right)) == "\U{A7}[" + (left + key + right) + "]\U{A7}"
  {
    NoBlockInside(left, key, right);
    TrimSpacePadded(left, key, right);
  }

  lemma NoBlockInside(left: string, key: string, right: string)
    requires IsKey(key) && Blank(left) && Blank(right)
    ensures !HasPrefix(left + key + right, "#>")
  {
    var t := left + key + right;
    if left != "" {
      assert t[0] == left[0] && left[0] in left;
      assert t[0] != '#';
    } else if |key| >= 2 {
      assert t[..2] == key[..2];
    } else if |t| >= 2 {
      assert t[1] == right[1 - |key|] && right[1 - |key|] in right;
      assert t[1] != '>' && t[..2][1] == t[1];
    }
  }

  /** Wherever a node that is no literal stands behind an open text, what is in front is executed, then the node, then the rest. */
  lemma NodeServed<S(!new)>(before: string, node: Node, after: string, env: Env, write: (S, string) -> S,
                            nested: (string, S) -> (S, Reply), s: S)
    requires Open(Parse(before)) && WellFormedNode(node) && !node.Literal?
    ensures var text := before + (PrintNode(node) + after);
            var (s1, first) := Denote(text, Parse(before), env, write, nested, s);
            var (s2, reply) := DenoteNode(node, env, write, nested, s1);
            Denote(text, Parse(text), env, write, nested, s) ==
            if !first.Ok? then (s1, first) else if reply.Ok? then Denote(text, Parse(after), env, write, nested, s2) else (s2, reply)
  {
    var text := before + (PrintNode(node) + after);
    PrintParse(before);
    ParsePrintedNode(node, after);
    PrintedMarkers(node, after);
    ParseAppend(Parse(before), PrintNode(node) + after);
    DenoteAppend(text, Parse(before), Then(node, Parse(after)), env, write, nested, s);
    var (s1, _) := Denote(text, Parse(before), env, write, nested, s);
    DenoteThen(text, node, Parse(after), env, write, nested, s1);
  }

  /** A variable, with or without white space around its name, writes its value as text, and nothing if it has none; execution goes on
      behind it. */
  lemma VariableServed<S(!new)>(before: string, left: string, key: string, right: string, after: string, env: Env,
                                write: (S, string) -> S, nested: (string, S) -> (S, Reply), s: S)
    requires Open(Parse(before)) && IsKey(key) && Blank(left) && Blank(right) && Closed(left + key + right)
    ensures var text := before + ("\U{A7}[" + (left + key + right) + "]\U{A7}" + after);
            var (s1, first) := Denote(text, Parse(before), env, write, nested, s);
            Denote(text, Parse(text), env, write, nested, s) ==
            if !first.Ok? then (s1, first)
            else match Lookup(env.data, key)
                 case None => Denote(text, Parse(after), env, write, nested, s1)
                 case Some(v) => Denote(text, Parse(after), env, write, nested, write(s1, env.format(v)))
  {
    KeyNode(left, key, right);
    NodeServed(before, Placeholder(left + key + right), after, env, write, nested, s);
  }

  /** In particular a placeholder with the name of an entry, and nothing else in the text. */
  lemma EntryServed<S(!new)>(left: string, key: string, right: string, env: Env, write: (S, string) -> S,
                             nested: (string, S) -> (S, Reply), s: S)
    requires IsKey(key) && Blank(left) && Blank(right) && Closed(left + key + right)
    requires env.data.Some? && key in env.data.value
    ensures var text := "\U{A7}[" + (left + key + right) + "]\U{A7}";
            Denote(text, Parse(text), env, write, nested, s) == (write(s, env.format(env.data.value[key])), Ok)
  {
    var text := "\U{A7}[" + (left + key + right) + "]\U{A7}";
    assert "" + (text + "") == text;
    VariableServed("", left, key, right, "", env, write, nested, s);
  }

  // ------------------------------------------------------------------------------------- blocks and text

  /** A block whose name and alternative text hold no marker: the name is called, and only after a failure the alternative text is
      written, behind what the call has written. */
  lemma BlockServed<S(!new)>(before: string, name: string, alt: string, after: string, env: Env, write: (S, string) -> S,
                             nested: (string, S) -> (S, Reply), s: S)
    requires Open(Parse(before)) && Trimmed(name) && Closed(name) && Separated(alt)
    ensures var text := before + ("\U{A7}[#> " + name + "]\U{A7}" + alt + "\U{A7}[/" + name + "]\U{A7}" + after);
            var (s1, first) := Denote(text, Parse(before), env, write, nested, s);
            var (s2, called) := nested(name, s1);
            Denote(text, Parse(text), env, write, nested, s) ==
            if !first.Ok? then (s1, first)
            else match called
                 case Ok => Denote(text, Parse(after), env, write, nested, s2)
                 case Failed(_) => Denote(text, Parse(after), env, write, nested, write(s2, alt))
                 case Panicked => (s2, Panicked)
  {
    BlockNode(name, alt);
    BlockSpelled(name, alt);
    BlockServedAs(before, "\U{A7}[#> " + name + "]\U{A7}" + alt + "\U{A7}[/" + name + "]\U{A7}", " " + name, name, alt, after, env, write,
                  nested, s);
  }

  lemma BlockServedAs<S(!new)>(before: string, printed: string, body: string, name: string, alt: string, after: string, env: Env,
                               write: (S, string) -> S, nested: (string, S) -> (S, Reply), s: S)
    requires Open(Parse(before)) && WellFormedNode(Block(body, alt)) && printed == PrintNode(Block(body, alt)) && TrimSpace(body) == name
    ensures var text := before + (printed + after);
            var (s1, first) := Denote(text, Parse(before), env, write, nested, s);
            var (s2, called) := nested(name, s1);
            Denote(text, Parse(text), env, write, nested, s) ==
            if !first.Ok? then (s1, first)
            else match called
                 case Ok => Denote(text, Parse(after), env, write, nested, s2)
                 case Failed(_) => Denote(text, Parse(after), env, write, nested, write(s2, alt))
                 case Panicked => (s2, Panicked)
  {
    var text, node := before + (printed + after), Block(body, alt);
    NodeServed(before, node, after, env, write, nested, s);
    BlockDenoted(body, name, alt, env, write, nested, Denote(text, Parse(before), env, write, nested, s).0);
    BlockGoesOn(text, Parse(text), Parse(before), node, Parse(after), name, alt, env, write, nested, s);
  }

  lemma BlockGoesOn<S(!new)>(text: string, t: Template, before: Template, node: Node, after: Template, name: string, alt: string, env: Env,
                             write: (S, string) -> S, nested: (string, S) -> (S, Reply), s: S)
    requires var (s1, first) := Denote(text, before, env, write, nested, s);
             var (s2, reply) := DenoteNode(node, env, write, nested, s1);
             var (s3, called) := nested(name, s1);
             && (s2, reply) == (if called.Failed? then (write(s3, alt), Ok) else (s3, called))
             && Denote(text, t, env, write, nested, s) ==
                if !first.Ok? then (s1, first) else if reply.Ok? then Denote(text, after, env, write, nested, s2) else (s2, reply)
    ensures var (s1, first) := Denote(text, before, env, write, nested, s);
            var (s2, called) := nested(name, s1);
            Denote(text, t, env, write, nested, s) ==
            if !first.Ok? then (s1, first)
            else match called
                 case Ok => Denote(text, after, env, write, nested, s2)
                 case Failed(_) => Denote(text, after, env, write, nested, write(s2, alt))
                 case Panicked => (s2, Panicked)
  {
  }

  lemma BlockDenoted<S(!new)>(body: string, name: string, alt: string, env: Env, write: (S, string) -> S,
                              nested: (string, S) -> (S, Reply), s: S)
    requires TrimSpace(body) == name
    ensures var (s', called) := nested(name, s);
            DenoteNode(Block(body, alt), env, write, nested, s) == if called.Failed? then (write(s', alt), Ok) else (s', called)
  {
  }

  lemma BlockSpelled(name: string, alt: string)
    requires TrimSpace(" " + name) == name
    ensures PrintNode(Block(" " + name, alt)) == "\U{A7}[#> " + name + "]\U{A7}" + alt + "\U{A7}[/" + name + "]\U{A7}"
  {
    var opening, closing := Opening(" " + name), Closing(" " + name);
    assert opening == "\U{A7}[#> " + name + "]\U{A7}";
    assert closing == "\U{A7}[/" + name + "]\U{A7}";
    assert opening + alt + ("\U{A7}[/" + name + "]\U{A7}") == opening + alt + "\U{A7}[/" + name + "]\U{A7}";
  }

  lemma BlockNode(name: string, alt: string)
    requires Trimmed(name) && Closed(name) && Separated(alt)
    ensures WellFormedNode(Block(" " + name, alt)) && TrimSpace(" " + name) == name
  {
    TrimLeadingBlank(name);
    ClosedBehind(" ", name);
    ClosedBehindSlash(name);
    ClosingParts(" " + name);
    ClosingBehind(" " + name, alt, Closing(" " + name));
  }

  lemma ClosedBehindSlash(name: string)
    requires Closed(name)
    ensures Closed("/" + name)
  {
    var t := "/" + name;
    IndexIsFirst(t, PLACEHOLDER_END);
    IndexIsFirst(name, PLACEHOLDER_END);
    AtEnd(t, Index(t, PLACEHOLDER_END));
    AtEnd(name, Index(t, PLACEHOLDER_END) - 1);
  }

  /** A closing marker ends at its own end marker. */
  lemma ClosingParts(body: string)
    requires Closed("/" + TrimSpace(body))
    ensures HasPrefix(Closing(body), PLACEHOLDER_START) && Index(Closing(body), PLACEHOLDER_END) == 3 + |TrimSpace(body)|
  {
    EndOfBody("/" + TrimSpace(body), "");
    assert PLACEHOLDER_START + ("/" + TrimSpace(body)) + PLACEHOLDER_END + "" == Closing(body);
  }

  lemma ClosingBehind(body: string, alt: string, c: string)
    requires Separated(alt) && c == Closing(body) && HasPrefix(c, PLACEHOLDER_START)
    requires Index(c, PLACEHOLDER_END) == 3 + |TrimSpace(body)|
    ensures Index("\U{A7}" + alt + c, c) == 1 + |alt|
  {
    Regroup("\U{A7}", alt, c);
    forall j | j < 1 + |alt| ensures !At("\U{A7}" + alt + c, c, j) { NotInside("\U{A7}" + alt + c, body, alt, c, j); }
    FirstBehind("\U{A7}" + alt, c);
  }

  lemma FirstBehind(front: string, c: string)
    requires forall j :: j < |front| ==> !At(front + c, c, j)
    ensures Index(front + c, c) == |front|
  {
    assert (front + c)[|front|..|front| + |c|] == c;
    IndexIs(front + c, c, |front|);
  }

  lemma NotInside(t: string, body: string, alt: string, c: string, j: int)
    requires Separated(alt) && c == Closing(body) && HasPrefix(c, PLACEHOLDER_START) && t == "\U{A7}" + (alt + c)
    requires Index(c, PLACEHOLDER_END) == 3 + |TrimSpace(body)|
    requires j < 1 + |alt|
    ensures !At(t, c, j)
  {
    if At(t, c, j) {
      AtClosing(t, body, j);
      EndBehind(t, alt, c, j + 3 + |TrimSpace(body)|);
      StartBehind(t, alt, c, j);
      assert false;
    }
  }

  lemma EndBehind(t: string, alt: string, c: string, q: int)
    requires Separated(alt) && HasPrefix(c, PLACEHOLDER_START) && t == "\U{A7}" + (alt + c)
    requires 0 < q && q + 2 <= |t| && t[q] == ']' && t[q + 1] == '\U{A7}'
    ensures q - 1 - |alt| >= Index(c, PLACEHOLDER_END)
  {
    AtEnd(alt + c, q - 1);
    if q - 1 < |alt| {
      NothingInSeparated(alt, c, q - 1);
    } else {
      AtConcat(alt, c, PLACEHOLDER_END, q - 1);
      IndexIsFirst(c, PLACEHOLDER_END);
    }
  }

  lemma StartBehind(t: string, alt: string, c: string, j: int)
    requires Separated(alt) && HasPrefix(c, PLACEHOLDER_START) && t == "\U{A7}" + (alt + c)
    requires 0 <= j && j + 2 <= |t| && t[j] == '\U{A7}' && t[j + 1] == '[' && j < 1 + |alt|
    ensures j == 0
  {
    if j > 0 {
      AtStart(alt + c, j - 1);
      NothingInSeparated(alt, c, j - 1);
    }
  }

  /** Text without a start marker is written as it is. */
  lemma TextServed<S(!new)>(text: string, env: Env, write: (S, string) -> S, nested: (string, S) -> (S, Reply), s: S)
    requires !Contains(text, "\U{A7}[") && forall x :: write(x, "") == x
    ensures Denote(text, Parse(text), env, write, nested, s) == (write(s, text), Ok)
  {
  }

  // --------------------------------------------------------------------------------------------- errors

  /** A start marker behind which there is no end marker is an error that quotes the whole template. */
  lemma UnclosedPlaceholder<S(!new)>(text: string, env: Env, write: (S, string) -> S, nested: (string, S) -> (S, Reply), s: S)
    requires Contains(text, "\U{A7}[") && !Contains(text, "]\U{A7}")
    ensures Denote(text, Parse(text), env, write, nested, s) == (s, Failed(SeparatorMissing(text)))
  {
  }

  /** A block without closing marker is an error that quotes the missing marker. */
  lemma UnclosedBlock<S(!new)>(name: string, rest: string, env: Env, write: (S, string) -> S, nested: (string, S) -> (S, Reply), s: S)
    requires Trimmed(name) && Closed(name) && !Contains("\U{A7}" + rest, "\U{A7}[/" + name + "]\U{A7}")
    ensures var text := "\U{A7}[#> " + name + "]\U{A7}" + rest;
            Denote(text, Parse(text), env, write, nested, s) == (s, Failed(BlockEndMissing("\U{A7}[/" + name + "]\U{A7}")))
  {
    TrimLeadingBlank(name);
    ClosedBehind(" ", name);
    var body, closing := " " + name, "\U{A7}[/" + name + "]\U{A7}";
    assert Closing(body) == closing;
    assert Opening(body) == "\U{A7}[#> " + name + "]\U{A7}";
    ParseOpened(body, rest);
    assert Parse(Opening(body) + rest) == End(MissingBlockEnd(body, rest));
  }
}
