/** Which tags of a head count as repetitions of each other, told from their attributes. */
module HeadProperties {
  import opened Wrappers
  import opened Html
  import opened HeadDeduplication
  import opened HeadDeduplicationLaws
  import opened HeadFixpoints

  /** Both tags stand for one property: the later one goes if the earlier one stays and has a value. */
  predicate Same(t: Token, u: Token) {
    Property(t).Some? && Property(u).Some? && Property(t).value.0 == Property(u).value.0
  }

  /** A meta tag with one attribute is told by the name of the attribute, as charset; one with more by the name and the value of the
      first attribute, as the description. */
  predicate SameMeta(a: seq<Attribute>, b: seq<Attribute>) {
    match (|a|, |b|)
    case (0, _) => false
    case (_, 0) => false
    case (1, 1) => a[0].key == b[0].key
    case (1, _) => a[0].key == b[0].key + "_" + b[0].val
    case (_, 1) => a[0].key + "_" + a[0].val == b[0].key
    case _ => a[0].key + "_" + a[0].val == b[0].key + "_" + b[0].val
  }

  lemma Behind(front: string, a: string, b: string)
    ensures front + a == front + b <==> a == b
  {
    assert (front + a)[|front|..] == a && (front + b)[|front|..] == b;
  }

  lemma MetaKeyOf(attrs: seq<Attribute>)
    requires attrs != []
    ensures MetaKey(attrs) == "meta_" + if |attrs| == 1 then attrs[0].key else attrs[0].key + "_" + attrs[0].val
  {
  }

  lemma SameMetaExactly(t: Token, u: Token)
    requires IsNamed(t, "meta") && IsNamed(u, "meta")
    ensures Same(t, u) <==> SameMeta(t.attrs, u.attrs)
  {
    if t.attrs != [] && u.attrs != [] {
      var a := if |t.attrs| == 1 then t.attrs[0].key else t.attrs[0].key + "_" + t.attrs[0].val;
      var b := if |u.attrs| == 1 then u.attrs[0].key else u.attrs[0].key + "_" + u.attrs[0].val;
      MetaKeyOf(t.attrs);
      MetaKeyOf(u.attrs);
      Behind("meta_", a, b);
    }
  }

  /** In particular tags that begin with the same attribute differ in its value, and in nothing behind it. */
  lemma SameNamedMeta(t: Token, u: Token)
    requires IsNamed(t, "meta") && IsNamed(u, "meta") && |t.attrs| > 1 && |u.attrs| > 1 && t.attrs[0].key == u.attrs[0].key
    ensures Same(t, u) <==> t.attrs[0].val == u.attrs[0].val
  {
    SameMetaExactly(t, u);
    Behind(t.attrs[0].key + "_", t.attrs[0].val, u.attrs[0].val);
  }

  /** A meta tag with several attributes always has a value, made of the second one; one with a single attribute has its value. */
  lemma MetaClaims(t: Token)
    requires IsNamed(t, "meta") && t.attrs != []
    ensures Claims(t, MetaKey(t.attrs)) <==> |t.attrs| > 1 || t.attrs[0].val != ""
    ensures Property(t).Some?
    ensures Property(t).value.1 == if |t.attrs| > 1 then t.attrs[1].key + "_" + t.attrs[1].val else t.attrs[0].val
  {
    if |t.attrs| > 1 { assert '_' in t.attrs[1].key + "_" + t.attrs[1].val; }
  }

  /** All titles are the same, and so are all links that say to be canonical; other links are subject to nothing. */
  lemma SameElsewhere(t: Token, u: Token)
    ensures IsNamed(t, "title") && IsNamed(u, "title") ==> Same(t, u)
    ensures IsNamed(t, "link") && IsNamed(u, "link") ==>
              (Same(t, u) <==> IsCanonicalLink(t.attrs) && IsCanonicalLink(u.attrs))
    ensures Same(t, u) ==> t.name == u.name
  {
    if IsNamed(t, "meta") && t.attrs != [] { assert MetaKey(t.attrs)[..5] == "meta_"; }
    if IsNamed(u, "meta") && u.attrs != [] { assert MetaKey(u.attrs)[..5] == "meta_"; }
    assert "title"[0] == 't' && "canonical"[0] == 'c' && "meta_"[0] == 'm';
  }

  ghost predicate IsCanonicalLink(attrs: seq<Attribute>) {
    exists i :: 0 <= i < |attrs| && attrs[i].key == "rel" && attrs[i].val == "canonical"
  }

  /** Of several targets the last one counts. */
  lemma {:induction false} LastTarget(attrs: seq<Attribute>, i: nat)
    requires i < |attrs| && attrs[i].key == "href" && forall j :: i < j < |attrs| ==> attrs[j].key != "href"
    ensures LastHref(attrs) == attrs[i].val
  {
    if i < |attrs| - 1 { LastTarget(attrs[..|attrs| - 1], i); }
  }

  /** A canonical link claims to be it if and only if it has a target. */
  lemma CanonicalClaims(t: Token)
    requires IsNamed(t, "link") && IsCanonicalLink(t.attrs)
    ensures Claims(t, "canonical") <==> LastHref(t.attrs) != ""
  {
    var i :| 0 <= i < |t.attrs| && t.attrs[i].key == "rel" && t.attrs[i].val == "canonical";
    assert t.attrs[i] in t.attrs;
  }

  /** Whether the second of two tags stays. */
  lemma TwoTags(t: Token, u: Token)
    ensures Scan([t, u], map[]).0 == if Same(t, u) && Claims(t, Property(t).value.0) then [t] else [t, u]
  {
    var set_t := Set(t, map[]);
    assert [t, u][1..] == [u] && [u][1..] == [];
    assert Scan([], set_t).0 == [];
    if Property(u).Some? { SetGet(t, map[], Property(u).value.0); }
    if Keeps(u, set_t) {
      assert Scan([u], set_t).0 == [u] + Scan([], Set(u, set_t)).0;
    } else {
      assert AfterTitle([]) == [] && Scan([u], set_t).0 == [];
    }
    assert Scan([t, u], map[]).0 == [t] + Scan([u], set_t).0;
  }

  /** Tags no two of which are the same all stay. */
  lemma DifferentTagsStay(tokens: seq<Token>)
    requires HasText(tokens) && forall i, j :: 0 <= i < j < |tokens| ==> !Same(tokens[i], tokens[j])
    ensures Scan(tokens, map[]).0 == tokens
  {
    KeepsAllExactly(tokens, map[]);
  }

  /** A description and keywords are two properties, two descriptions are one. */
  lemma DescriptionAndKeywords(d: string, k: string)
    ensures var description := StartTag("meta", [Attribute("", "name", "description"), Attribute("", "content", d)], "<meta>");
            var keywords := StartTag("meta", [Attribute("", "name", "keywords"), Attribute("", "content", k)], "<meta>");
            var another := StartTag("meta", [Attribute("", "name", "description"), Attribute("", "content", k)], "<meta>");
            && Scan([description, keywords], map[]).0 == [description, keywords]
            && Scan([description, another], map[]).0 == [description]
  {
    var description := StartTag("meta", [Attribute("", "name", "description"), Attribute("", "content", d)], "<meta>");
    var keywords := StartTag("meta", [Attribute("", "name", "keywords"), Attribute("", "content", k)], "<meta>");
    var another := StartTag("meta", [Attribute("", "name", "description"), Attribute("", "content", k)], "<meta>");
    assert |"description"| != |"keywords"|;
    SameNamedMeta(description, keywords);
    SameNamedMeta(description, another);
    MetaClaims(description);
    TwoTags(description, keywords);
    TwoTags(description, another);
  }
}
