/** The tags and attributes that the parser understands, by their names and values in the page. */
module Markup {
  import opened Wrappers
  import opened Strings
  import opened Html
  import opened Templating
  import opened TemplatingSyntax
  import opened Rendering
  import opened Includes
  import opened Fragments
  import opened HtmlContentParser

  /** Truth values are spelled in one of twelve ways. */
  lemma TruthValues(t: string)
    ensures ParseBool(t) == Some(true) <==> t in ["1", "t", "T", "true", "TRUE", "True"]
    ensures ParseBool(t) == Some(false) <==> t in ["0", "f", "F", "false", "FALSE", "False"]
  {
  }

  // ----------------------------------------------------------------------------------------- includes

  /** What is written for an include tag: markers with the source, which loses surrounding white space and one separator in front. A tag
      without source, or with a requirement that is no truth value, is refused. */
  lemma IncludeTag(attrs: seq<Attribute>)
    ensures var src, required := GetAttr(attrs, "src"), GetAttr(attrs, "required");
            if src.None? then GetInclude(attrs) == Refused(WithoutSrc)
            else if required.Some? && ParseBool(required.value.val).None? then GetInclude(attrs) == Refused(BadBool(required.value.val))
            else
              var text := TrimSpace(src.value.val);
              var name := if text != "" && text[0] == '#' then text[1..] else text;
              var e := GetInclude(attrs);
              && e.Emitted? && e.dependency == Split(name, '#')[0] && e.params == ParamsOf(attrs)
              && if required.Some? && ParseBool(required.value.val) == Some(true)
                 then e.startMarker == "\U{A7}[> " + name + "]\U{A7}" && e.endMarker == ""
                 else e.startMarker == "\U{A7}[#> " + name + "]\U{A7}" && e.endMarker == "\U{A7}[/" + name + "]\U{A7}"
  {
    var src := GetAttr(attrs, "src");
    if src.Some? {
      var text := TrimSpace(src.value.val);
      if text != "" && text[0] == '#' { assert HasPrefix(text, "#"); }
      MarkersSpelled(SourceOf(src.value.val));
    }
  }

  lemma MarkersSpelled(src: string)
    ensures StartMarker(src, true) == "\U{A7}[> " + src + "]\U{A7}" && EndMarker(src, true) == ""
    ensures StartMarker(src, false) == "\U{A7}[#> " + src + "]\U{A7}" && EndMarker(src, false) == "\U{A7}[/" + src + "]\U{A7}"
  {
    Regroup("\U{A7}[>", " ", src);
    Regroup("\U{A7}[#>", " ", src);
    assert "\U{A7}[>" + " " == "\U{A7}[> " && "\U{A7}[#>" + " " == "\U{A7}[#> ";
    assert PLACEHOLDER_START + START_INCLUDE == "\U{A7}[>" && PLACEHOLDER_START + START_INCLUDE_BLOCK == "\U{A7}[#>";
    assert PLACEHOLDER_START + END_INCLUDE_BLOCK == "\U{A7}[/";
  }

  // ----------------------------------------------------------------------------------------- fetch tags

  /** Which fetch tags are refused, and why; the first reason counts. */
  lemma FetchTagRefused(attrs: seq<Attribute>, env: Foreign)
    ensures var src, timeout, required := GetAttr(attrs, "src"), GetAttr(attrs, "timeout"), GetAttr(attrs, "required");
            if src.None? then GetFetch(attrs, env) == FetchRefused(FetchWithoutSrc)
            else if timeout.Some? && env.atoi(timeout.value.val).None? then GetFetch(attrs, env) == FetchRefused(BadTimeout(timeout.value.val))
            else if required.Some? && ParseBool(required.value.val).None? then GetFetch(attrs, env) == FetchRefused(BadRequired(required.value.val))
            else GetFetch(attrs, env).Fetched?
  {
  }

  // ------------------------------------------------------------------------------------- void elements

  /** The elements without content, and no others, need no end tag: a removed element with one of them inside ends at its own end
      tag, and with any other start tag inside it does not. */
  lemma VoidElements(name: string, inner: seq<Attribute>, raw: string, end: Token, rest: seq<Token>)
    requires end.EndTag? && rest != [] && rest[0].TextToken?
    ensures var removed := StartTag("p", [Attribute("", "uic-remove", "")], "<p uic-remove>");
            var tokens := [StartTag(name, inner, raw), end] + rest;
            IsRemoved(removed) &&
            if name in ["area", "base", "br", "col", "command", "embed", "hr", "img", "input", "keygen", "link", "meta", "param",
                        "source", "track", "wbr"]
            then BehindRemoved(removed, tokens) == rest
            else |BehindRemoved(removed, tokens)| < |rest|
  {
    var tokens := [StartTag(name, inner, raw), end] + rest;
    assert tokens[1..] == [end] + rest && ([end] + rest)[1..] == rest;
    assert Skip(rest, 0) == Skip(rest[1..], 0);
    if name in VOID_ELEMENTS {
      assert Skip(tokens, 0) == Skip([end] + rest, 0);
    } else {
      assert Skip(tokens, 0) == Skip([end] + rest, 1) == Skip(rest, 0);
    }
  }

  // -------------------------------------------------------------------------------------- meta scripts

  /** A meta script in a head adds the entries of its object, overriding those of the same name; null drops what was there. */
  lemma MetaScriptRead(json: string, more: map<string, Value>, meta: map<string, Value>, env: Foreign, key: string)
    requires env.decode(json) == Some(MetaObject(more))
    ensures var head := [StartTag("script", [Attribute("", "type", "text/uic-meta")], "<script>"), TextToken(json),
                         EndTag("script", "</script>"), EndTag("head", "</head>")];
            var o := HeadScan(head, None, HeadAcc("", [], meta), env);
            && o.error == None && o.acc.out == "" && o.acc.sheets == []
            && (key in o.acc.meta <==> key in more || key in meta)
            && (key in more ==> o.acc.meta[key] == more[key])
            && (key in meta && key !in more ==> o.acc.meta[key] == meta[key])
  {
    MetaScriptScanned(json, MetaObject(more), meta, env);
  }

  lemma NullScriptRead(json: string, meta: map<string, Value>, env: Foreign)
    requires env.decode(json) == Some(NullMeta)
    ensures var head := [StartTag("script", [Attribute("", "type", "text/uic-meta")], "<script>"), TextToken(json),
                         EndTag("script", "</script>"), EndTag("head", "</head>")];
            HeadScan(head, None, HeadAcc("", [], meta), env) == Outcome(HeadAcc("", [], map[]), [], None)
  {
    MetaScriptScanned(json, NullMeta, meta, env);
  }

  lemma MetaScriptScanned(json: string, more: MetaJson, meta: map<string, Value>, env: Foreign)
    requires env.decode(json) == Some(more)
    ensures var head := [StartTag("script", [Attribute("", "type", "text/uic-meta")], "<script>"), TextToken(json),
                         EndTag("script", "</script>"), EndTag("head", "</head>")];
            HeadScan(head, None, HeadAcc("", [], meta), env) == Outcome(HeadAcc("", [], AddMeta(meta, more)), [], None)
  {
    var script := StartTag("script", [Attribute("", "type", "text/uic-meta")], "<script>");
    var text, end, headEnd := TextToken(json), EndTag("script", "</script>"), EndTag("head", "</head>");
    assert [script, text, end, headEnd][1..] == [text, end, headEnd] && [text, end, headEnd][2..] == [headEnd] && [headEnd][1..] == [];
    assert IsMetaScript(script) && !IsRemoved(script);
    assert HeadScan([headEnd], None, HeadAcc("", [], AddMeta(meta, more)), env) == Outcome(HeadAcc("", [], AddMeta(meta, more)), [], None);
  }

  // ------------------------------------------------------------------------------------------ url names

  lemma {:induction false} NothingReplaced(t: string, what: string, with: string)
    requires what != "" && !Contains(t, what)
    ensures ReplaceAll(t, what, with) == t
    decreases |t|
  {
    if |t| >= |what| {
      IndexIsFirst(t, what);
      assert !Strings.At(t, what, 0);
      if Contains(t[1..], what) {
        IndexIsFirst(t[1..], what);
        AtTail(t, what, Strings.Index(t[1..], what) + 1);
      }
      NothingReplaced(t[1..], what, with);
      assert t == [t[0]] + t[1..];
    }
  }

  /** A URL without markers is its own name. */
  lemma PlainUrl(url: string)
    requires !Contains(url, "\U{A7}[") && !Contains(url, "]\U{A7}")
    ensures UrlToName(url) == url
  {
    NothingReplaced(url, "\U{A7}[", "\\\U{A7}\\[");
    NothingReplaced(url, "]\U{A7}", "\\]\\\U{A7}");
  }

  ghost predicate NoPair(t: string, a: char, b: char) {
    forall j :: 0 <= j < |t| - 1 ==> !(t[j] == a && t[j + 1] == b)
  }

  lemma NoPairCons(c: char, rest: string, a: char, b: char)
    requires NoPair(rest, a, b) && (rest != "" ==> !(c == a && rest[0] == b))
    ensures NoPair([c] + rest, a, b)
  {
    var t := [c] + rest;
    forall j | 0 <= j < |t| - 1 ensures !(t[j] == a && t[j + 1] == b) {
      if j > 0 { assert t[j] == rest[j - 1] && t[j + 1] == rest[j]; }
    }
  }

  /** Masking two characters with backslashes in front of each. */
  function Masked(t: string, a: char, b: char): string {
    ReplaceAll(t, [a, b], ['\\', a, '\\', b])
  }

  lemma MaskedCons(t: string, a: char, b: char)
    requires t != ""
    ensures if |t| >= 2 && t[0] == a && t[1] == b
            then Masked(t, a, b) == ['\\'] + ([a] + (['\\'] + ([b] + Masked(t[2..], a, b))))
            else Masked(t, a, b) == [t[0]] + Masked(t[1..], a, b)
  {
    if |t| >= 2 {
      assert t[..2] == [t[0], t[1]];
    } else {
      assert t[1..] == "" && Masked("", a, b) == "" && t == [t[0]] + "";
    }
  }

  lemma {:induction false} MaskedFirst(t: string, a: char, b: char)
    ensures t == "" ==> Masked(t, a, b) == ""
    ensures t != "" ==> Masked(t, a, b) != "" && (Masked(t, a, b)[0] == '\\' || Masked(t, a, b)[0] == t[0])
    ensures t != "" && Masked(t, a, b)[0] != '\\' ==> Masked(t, a, b)[0] == t[0] && !(|t| >= 2 && t[0] == a && t[1] == b)
  {
    if t != "" { MaskedCons(t, a, b); }
  }

  lemma {:induction false} MaskedHasNone(t: string, a: char, b: char)
    requires a != '\\' && b != '\\' && a != b
    ensures NoPair(Masked(t, a, b), a, b)
    decreases |t|
  {
    if t != "" {
      MaskedCons(t, a, b);
      if |t| >= 2 && t[0] == a && t[1] == b {
        var rest := Masked(t[2..], a, b);
        MaskedHasNone(t[2..], a, b);
        NoPairCons(b, rest, a, b);
        NoPairCons('\\', [b] + rest, a, b);
        NoPairCons(a, ['\\'] + ([b] + rest), a, b);
        NoPairCons('\\', [a] + (['\\'] + ([b] + rest)), a, b);
      } else {
        MaskedHasNone(t[1..], a, b);
        MaskedFirst(t[1..], a, b);
        NoPairCons(t[0], Masked(t[1..], a, b), a, b);
      }
    }
  }

  /** Masking makes no other pair that ends where the masked one begins or begins where it ends. */
  lemma {:induction false} MaskedAddsNone(t: string, a: char, b: char, d: char)
    requires a != '\\' && b != '\\' && d != '\\' && a != b && NoPair(t, b, d)
    ensures NoPair(Masked(t, a, b), b, d)
    decreases |t|
  {
    if t != "" {
      MaskedCons(t, a, b);
      if |t| >= 2 && t[0] == a && t[1] == b {
        var rest := Masked(t[2..], a, b);
        NoPairTail(t, 2, b, d);
        MaskedAddsNone(t[2..], a, b, d);
        MaskedFirst(t[2..], a, b);
        NoPairCons(b, rest, b, d);
        NoPairCons('\\', [b] + rest, b, d);
        NoPairCons(a, ['\\'] + ([b] + rest), b, d);
        NoPairCons('\\', [a] + (['\\'] + ([b] + rest)), b, d);
      } else {
        NoPairTail(t, 1, b, d);
        MaskedAddsNone(t[1..], a, b, d);
        MaskedFirst(t[1..], a, b);
        NoPairCons(t[0], Masked(t[1..], a, b), b, d);
      }
    }
  }

  lemma NoPairTail(t: string, k: nat, a: char, b: char)
    requires NoPair(t, a, b) && k <= |t|
    ensures NoPair(t[k..], a, b)
    ensures 0 < k < |t| ==> !(t[k - 1] == a && t[k] == b)
  {
    forall j | 0 <= j < |t[k..]| - 1 ensures !(t[k..][j] == a && t[k..][j + 1] == b) {
      assert t[k + j] == t[k..][j] && t[k + j + 1] == t[k..][j + 1];
    }
  }

  lemma NoPairNotContained(t: string, a: char, b: char)
    requires NoPair(t, a, b)
    ensures !Contains(t, [a, b])
  {
    var i := Strings.Index(t, [a, b]);
    IndexIsFirst(t, [a, b]);
    if Contains(t, [a, b]) {
      PairAt(t, a, b, i);
      assert false;
    }
  }

  lemma PairAt(t: string, a: char, b: char, i: int)
    requires Strings.At(t, [a, b], i)
    ensures 0 <= i < |t| - 1 && t[i] == a && t[i + 1] == b
  {
    assert t[i..i + 2] == [t[i], t[i + 1]];
  }

  lemma {:induction false} FirstMasked(x: string, y: string, a: char, b: char)
    requires NoPair(x + [a], a, b) && a != b
    ensures Masked(x + ([a, b] + y), a, b) == x + (['\\', a, '\\', b] + Masked(y, a, b))
  {
    var t := x + ([a, b] + y);
    MaskedCons(t, a, b);
    if x == "" {
      assert t == [a, b] + y && t[2..] == y;
    } else {
      assert t[1..] == x[1..] + ([a, b] + y) && (x + [a])[1..] == x[1..] + [a];
      assert t[0] == (x + [a])[0] && t[1] == (x + [a])[1];
      NoPairTail(x + [a], 1, a, b);
      FirstMasked(x[1..], y, a, b);
      assert [t[0]] + Masked(t[1..], a, b) == x + (['\\', a, '\\', b] + Masked(y, a, b));
    }
  }

  lemma NothingMasked(t: string, a: char, b: char)
    requires NoPair(t, a, b)
    ensures Masked(t, a, b) == t
  {
    NoPairNotContained(t, a, b);
    NothingReplaced(t, [a, b], ['\\', a, '\\', b]);
  }

  /** Of a placeholder in a URL the name shows the key between masked markers, and the rest of the URL as it is. */
  lemma PlaceholderMasked(before: string, key: string, after: string)
    requires NoPair(before + "\U{A7}", '\U{A7}', '[') && NoPair(key + "]\U{A7}" + after, '\U{A7}', '[')
    requires NoPair(before + "\\\U{A7}\\[" + key + "]", ']', '\U{A7}') && NoPair(after, ']', '\U{A7}')
    ensures UrlToName(before + ("\U{A7}[" + (key + "]\U{A7}" + after)))
         == before + "\\\U{A7}\\[" + key + ("\\]\\\U{A7}" + after)
  {
    var rest := key + "]\U{A7}" + after;
    FirstMasked(before, rest, '\U{A7}', '[');
    NothingMasked(rest, '\U{A7}', '[');
    var front := before + "\\\U{A7}\\[" + key;
    assert before + ("\\\U{A7}\\[" + rest) == front + ("]\U{A7}" + after);
    FirstMasked(front, after, ']', '\U{A7}');
    NothingMasked(after, ']', '\U{A7}');
    assert ['\\', '\U{A7}', '\\', '['] == "\\\U{A7}\\[" && ['\\', ']', '\\', '\U{A7}'] == "\\]\\\U{A7}";
  }

  /** The name made of a URL holds no marker of the template language. */
  lemma UrlNameHasNoMarker(url: string)
    ensures !Contains(UrlToName(url), "\U{A7}[") && !Contains(UrlToName(url), "]\U{A7}")
  {
    var once := Masked(url, '\U{A7}', '[');
    var name := Masked(once, ']', '\U{A7}');
    assert ['\U{A7}', '['] == PLACEHOLDER_START && [']', '\U{A7}'] == PLACEHOLDER_END;
    assert ['\\', '\U{A7}', '\\', '['] == "\\\U{A7}\\[" && ['\\', ']', '\\', '\U{A7}'] == "\\]\\\U{A7}";
    assert UrlToName(url) == name;
    MaskedHasNone(url, '\U{A7}', '[');
    MaskedAddsNone(once, ']', '\U{A7}', '[');
    MaskedHasNone(once, ']', '\U{A7}');
    NoPairNotContained(name, '\U{A7}', '[');
    NoPairNotContained(name, ']', '\U{A7}');
  }
}
