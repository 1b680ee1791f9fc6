/** The index of body fragments: every fragment is entered under its local and under its full name. */
module FragmentIndex {
  import opened Wrappers
  import opened Strings

  const FRAGMENT_SEPARATOR := "#"

  function Find<T>(index: map<string, T>, key: string): Option<T> {
    if key in index then Some(index[key]) else None
  }

  /** GetBodyFragmentByName: the name itself, else without a trailing separator, else as a local name. */
  function Resolve<T>(index: map<string, T>, name: string): Option<T> {
    if name in index then Some(index[name])
    else if HasSuffix(name, FRAGMENT_SEPARATOR) then Find(index, name[..|name| - 1])
    else if !Contains(name, FRAGMENT_SEPARATOR) then Find(index, FRAGMENT_SEPARATOR + name)
    else None
  }

  function LocalKey(local: string): string {
    FRAGMENT_SEPARATOR + local
  }

  function FullKey(page: string, local: string): string {
    if local == "" then page else page + FRAGMENT_SEPARATOR + local
  }

  /** One round of the loop of addBody. */
  function Enter<T>(index: map<string, T>, page: string, local: string, f: T): map<string, T> {
    index[LocalKey(local) := f][FullKey(page, local) := f]
  }

  /** The whole loop, for one of the orders in which Go may iterate over the page's fragments. */
  function EnterAll<T>(index: map<string, T>, page: string, body: map<string, T>, order: seq<string>): map<string, T>
    requires forall local :: local in order ==> local in body
  {
    if order == [] then index
    else
      var n := |order| - 1;
      Enter(EnterAll(index, page, body, order[..n]), page, order[n], body[order[n]])
  }

  /** The fragment a page offers under a key. */
  function Offers<T>(page: string, body: map<string, T>, key: string): Option<T> {
    if HasPrefix(key, FRAGMENT_SEPARATOR) then Find(body, key[1..])
    else if key == page then Find(body, "")
    else if HasPrefix(key, page + FRAGMENT_SEPARATOR) && key != page + FRAGMENT_SEPARATOR then Find(body, key[|page| + 1..])
    else None
  }

  lemma EnterOffers<T>(index: map<string, T>, page: string, local: string, body: map<string, T>, key: string)
    requires local in body && !HasPrefix(page, FRAGMENT_SEPARATOR)
    ensures Find(Enter(index, page, local, body[local]), key)
         == if key == LocalKey(local) || key == FullKey(page, local) then Offers(page, body, key) else Find(index, key)
  {
    var full := page + FRAGMENT_SEPARATOR + local;
    assert full[|page| + 1..] == local;
    assert full[..|page| + 1] == page + FRAGMENT_SEPARATOR;
    assert page == "" ==> full == LocalKey(local);
    assert full != "" && (page != "" ==> full[0] == page[0]);
  }

  ghost predicate Enters<T>(page: string, order: seq<string>, key: string) {
    exists local :: local in order && (key == LocalKey(local) || key == FullKey(page, local))
  }

  lemma {:induction false} EnterAllOffers<T>(index: map<string, T>, page: string, body: map<string, T>, order: seq<string>, key: string)
    requires !HasPrefix(page, FRAGMENT_SEPARATOR) && forall local :: local in order ==> local in body
    ensures Find(EnterAll(index, page, body, order), key)
         == if Enters<T>(page, order, key) then Offers(page, body, key) else Find(index, key)
  {
    if order != [] {
      var n := |order| - 1;
      EnterAllOffers(index, page, body, order[..n], key);
      EnterOffers(EnterAll(index, page, body, order[..n]), page, order[n], body, key);
      assert order == order[..n] + [order[n]];
      assert forall local :: local in order <==> local in order[..n] || local == order[n];
    }
  }

  lemma EntersWhatIsOffered<T>(page: string, body: map<string, T>, order: seq<string>, key: string)
    requires !HasPrefix(page, FRAGMENT_SEPARATOR) && forall local :: local in order <==> local in body
    ensures Enters<T>(page, order, key) <==> Offers(page, body, key).Some?
  {
    if Offers(page, body, key).Some? {
      var local := if HasPrefix(key, FRAGMENT_SEPARATOR) then key[1..] else if key == page then "" else key[|page| + 1..];
      assert key == LocalKey(local) || key == FullKey(page, local);
      assert local in order;
    }
    if Enters<T>(page, order, key) {
      var local :| local in order && (key == LocalKey(local) || key == FullKey(page, local));
      EnterOffers(map[], page, local, body, key);
      var m: map<string, T> := map[];
      assert Find(Enter(m, page, local, body[local]), key).Some?;
    }
  }

  /** The order of iteration does not matter for a page whose name does not start with the separator: afterwards the page
      shadows the index with what it offers. */
  lemma AddPage<T>(index: map<string, T>, page: string, body: map<string, T>, order: seq<string>, key: string)
    requires !HasPrefix(page, FRAGMENT_SEPARATOR) && forall local :: local in order <==> local in body
    ensures Find(EnterAll(index, page, body, order), key)
         == if Offers(page, body, key).Some? then Offers(page, body, key) else Find(index, key)
  {
    EnterAllOffers(index, page, body, order, key);
    EntersWhatIsOffered(page, body, order, key);
  }

  /** For a page name that starts with the separator the order does matter: the full key of one fragment is the local key
      of another one. */
  lemma OrderMatters(page: string)
    requires HasPrefix(page, FRAGMENT_SEPARATOR)
    ensures var other := page[1..] + "#x";
            var body := map["x" := 1, other := 2];
            && (forall local :: local in ["x", other] <==> local in body)
            && (forall local :: local in [other, "x"] <==> local in body)
            && Find(EnterAll(map[], page, body, ["x", other]), page + "#x") == Some(2)
            && Find(EnterAll(map[], page, body, [other, "x"]), page + "#x") == Some(1)
  {
    var other := page[1..] + "#x";
    var body := map["x" := 1, other := 2];
    var key := page + "#x";
    assert FullKey(page, "x") == key == LocalKey(other);
    assert |FullKey(page, other)| > |key|;
    var none: map<string, int> := map[];
    assert ["x", other][..1] == ["x"] && ["x"][..0] == [] && [other, "x"][..1] == [other] && [other][..0] == [];
    assert EnterAll(none, page, body, ["x"]) == Enter(none, page, "x", 1);
    assert EnterAll(none, page, body, [other]) == Enter(none, page, other, 2);
    assert EnterAll(none, page, body, ["x", other]) == Enter(Enter(none, page, "x", 1), page, other, 2);
    assert EnterAll(none, page, body, [other, "x"]) == Enter(Enter(none, page, other, 2), page, "x", 1);
  }

  // ------------------------------------------------------------------------- the index as a search

  datatype PageBody<T> = PageBody(name: string, body: map<string, T>)

  ghost predicate Covers<T>(order: seq<string>, body: map<string, T>) {
    forall local :: local in order <==> local in body
  }

  ghost predicate OrdersOf<T>(orders: seq<seq<string>>, pages: seq<PageBody<T>>) {
    |orders| == |pages| && forall i :: 0 <= i < |pages| ==> Covers(orders[i], pages[i].body)
  }

  /** Adding these pages one after the other, in these orders of iteration. */
  ghost function EnterPages<T>(pages: seq<PageBody<T>>, orders: seq<seq<string>>): map<string, T>
    requires OrdersOf(orders, pages)
  {
    if pages == [] then map[]
    else
      var n := |pages| - 1;
      EnterAll(EnterPages(pages[..n], orders[..n]), pages[n].name, pages[n].body, orders[n])
  }

  /** An index that came about by adding these pages, each in some order of iteration. */
  ghost predicate BuiltFrom<T>(index: map<string, T>, pages: seq<PageBody<T>>) {
    exists orders :: OrdersOf(orders, pages) && index == EnterPages(pages, orders)
  }

  lemma BuiltFromSnoc<T>(index: map<string, T>, pages: seq<PageBody<T>>, page: PageBody<T>, order: seq<string>)
    requires BuiltFrom(index, pages) && Covers(order, page.body)
    ensures BuiltFrom(EnterAll(index, page.name, page.body, order), pages + [page])
  {
    var orders :| OrdersOf(orders, pages) && index == EnterPages(pages, orders);
    OrdersSnoc(orders, pages, order, page);
    EnterPagesSnoc(pages, orders, page, order);
  }

  lemma OrdersSnoc<T>(orders: seq<seq<string>>, pages: seq<PageBody<T>>, order: seq<string>, page: PageBody<T>)
    requires OrdersOf(orders, pages) && Covers(order, page.body)
    ensures OrdersOf(orders + [order], pages + [page])
  {
    forall i | 0 <= i < |pages| + 1 ensures Covers((orders + [order])[i], (pages + [page])[i].body) {
      if i < |pages| { assert Covers(orders[i], pages[i].body); }
    }
  }

  lemma EnterPagesSnoc<T>(pages: seq<PageBody<T>>, orders: seq<seq<string>>, page: PageBody<T>, order: seq<string>)
    requires OrdersOf(orders, pages) && Covers(order, page.body) && OrdersOf(orders + [order], pages + [page])
    ensures EnterPages(pages + [page], orders + [order]) == EnterAll(EnterPages(pages, orders), page.name, page.body, order)
  {
    assert (pages + [page])[..|pages|] == pages && (orders + [order])[..|pages|] == orders;
  }

  /** The latest page that offers the key. */
  function LatestOffer<T>(pages: seq<PageBody<T>>, key: string): Option<T> {
    if pages == [] then None
    else
      var n := |pages| - 1;
      var offer := Offers(pages[n].name, pages[n].body, key);
      if offer.Some? then offer else LatestOffer(pages[..n], key)
  }

  /** The fragment with this local name, of the latest page that has one. */
  function LatestLocal<T>(pages: seq<PageBody<T>>, local: string): Option<T> {
    if pages == [] then None
    else
      var n := |pages| - 1;
      if local in pages[n].body then Some(pages[n].body[local]) else LatestLocal(pages[..n], local)
  }

  /** The fragment with this local name, of the latest page of that name that has one. */
  function LatestOf<T>(pages: seq<PageBody<T>>, name: string, local: string): Option<T> {
    if pages == [] then None
    else
      var n := |pages| - 1;
      if pages[n].name == name && local in pages[n].body then Some(pages[n].body[local]) else LatestOf(pages[..n], name, local)
  }

  predicate ProperName(name: string) {
    name != "" && '#' !in name
  }

  lemma {:induction false} EnteredIsLatestOffer<T>(pages: seq<PageBody<T>>, orders: seq<seq<string>>, key: string)
    requires OrdersOf(orders, pages) && forall p :: p in pages ==> !HasPrefix(p.name, FRAGMENT_SEPARATOR)
    ensures Find(EnterPages(pages, orders), key) == LatestOffer(pages, key)
  {
    if pages != [] {
      var n := |pages| - 1;
      EnteredIsLatestOffer(pages[..n], orders[..n], key);
      assert Covers(orders[n], pages[n].body);
      AddPage(EnterPages(pages[..n], orders[..n]), pages[n].name, pages[n].body, orders[n], key);
    }
  }

  lemma {:induction false} OfferedLocally<T>(pages: seq<PageBody<T>>, local: string)
    ensures LatestOffer(pages, LocalKey(local)) == LatestLocal(pages, local)
  {
    if pages != [] {
      assert LocalKey(local)[1..] == local;
      OfferedLocally(pages[..|pages| - 1], local);
    }
  }

  lemma NoSeparatorNoPrefix(page: string, key: string)
    requires '#' !in key
    ensures !HasPrefix(key, page + FRAGMENT_SEPARATOR)
  {
    assert (page + FRAGMENT_SEPARATOR)[|page|] == '#';
    assert forall k :: 0 <= k < |key| ==> key[k] in key;
  }

  lemma FirstSeparator(key: string, a: nat, b: nat)
    requires a < |key| && b < |key| && key[a] == key[b] == '#' && '#' !in key[..a] && '#' !in key[..b]
    ensures a == b
  {
    assert forall k :: 0 <= k < a ==> key[k] in key[..a];
    assert forall k :: 0 <= k < b ==> key[k] in key[..b];
  }

  lemma SamePage(page: string, name: string, local: string)
    requires '#' !in page && '#' !in name && HasPrefix(name + FRAGMENT_SEPARATOR + local, page + FRAGMENT_SEPARATOR)
    ensures page == name
  {
    var key := name + FRAGMENT_SEPARATOR + local;
    assert key[..|page|] == (page + FRAGMENT_SEPARATOR)[..|page|] == page;
    assert key[|page|] == (page + FRAGMENT_SEPARATOR)[|page|];
    assert key[..|name|] == name;
    FirstSeparator(key, |page|, |name|);
  }

  lemma FullKeyOffered<T>(page: string, body: map<string, T>, name: string, local: string)
    requires ProperName(page) && ProperName(name)
    ensures Offers(page, body, FullKey(name, local)) == if page == name then Find(body, local) else None
  {
    var key := FullKey(name, local);
    assert key[0] == name[0] && name[0] in name;
    if local == "" {
      NoSeparatorNoPrefix(page, name);
    } else {
      assert key == name + FRAGMENT_SEPARATOR + local && '#' == key[|name|] && '#' in key;
      if HasPrefix(key, page + FRAGMENT_SEPARATOR) { SamePage(page, name, local); }
      assert key[|name| + 1..] == local && key[..|name| + 1] == name + FRAGMENT_SEPARATOR;
    }
  }

  lemma {:induction false} OfferedInFull<T>(pages: seq<PageBody<T>>, name: string, local: string)
    requires ProperName(name) && forall p :: p in pages ==> ProperName(p.name)
    ensures LatestOffer(pages, FullKey(name, local)) == LatestOf(pages, name, local)
  {
    if pages != [] {
      var n := |pages| - 1;
      FullKeyOffered(pages[n].name, pages[n].body, name, local);
      OfferedInFull(pages[..n], name, local);
    }
  }

  /** Neither the empty name nor a page name with a trailing separator is a key. */
  lemma {:induction false} NotOffered<T>(pages: seq<PageBody<T>>, name: string)
    requires (forall p :: p in pages ==> ProperName(p.name)) && (name == "" || ProperName(name))
    ensures LatestOffer(pages, "") == None
    ensures name != "" ==> LatestOffer(pages, name + FRAGMENT_SEPARATOR) == None
  {
    if pages != [] {
      var n := |pages| - 1;
      NotOffered(pages[..n], name);
      var page := pages[n].name;
      assert '#' !in page;
      NoSeparatorNoPrefix(page, "");
      if name != "" {
        var key := name + FRAGMENT_SEPARATOR;
        assert key == name + FRAGMENT_SEPARATOR + "";
        assert key[0] == name[0] && name[0] in name && key[|name|] in key;
        if HasPrefix(key, page + FRAGMENT_SEPARATOR) { SamePage(page, name, ""); }
      }
    }
  }

  lemma SeparatorContained(name: string)
    ensures Contains(name, FRAGMENT_SEPARATOR) <==> '#' in name
  {
    IndexIsFirst(name, FRAGMENT_SEPARATOR);
    if '#' in name {
      var k :| 0 <= k < |name| && name[k] == '#';
      assert At(name, FRAGMENT_SEPARATOR, k);
    }
    if Contains(name, FRAGMENT_SEPARATOR) {
      var k := Index(name, FRAGMENT_SEPARATOR);
      assert name[k..k + 1] == [name[k]];
    }
  }

  ghost predicate ProperPages<T>(index: map<string, T>, pages: seq<PageBody<T>>) {
    BuiltFrom(index, pages) && forall p :: p in pages ==> ProperName(p.name)
  }

  lemma FindsLatestOffer<T>(index: map<string, T>, pages: seq<PageBody<T>>, key: string)
    requires ProperPages(index, pages)
    ensures Find(index, key) == LatestOffer(pages, key)
  {
    forall p | p in pages ensures !HasPrefix(p.name, FRAGMENT_SEPARATOR) { assert p.name[0] in p.name; }
    var orders :| OrdersOf(orders, pages) && index == EnterPages(pages, orders);
    EnteredIsLatestOffer(pages, orders, key);
  }

  lemma LastOf(a: string, b: string)
    requires b != ""
    ensures HasSuffix(a + b, FRAGMENT_SEPARATOR) <==> b[|b| - 1] == '#'
  {
    var t := a + b;
    assert t[|t| - 1..] == [b[|b| - 1]];
  }

  /** page#local: that page's fragment, of the latest page of this name that has one. */
  lemma ResolveQualified<T>(index: map<string, T>, pages: seq<PageBody<T>>, name: string, local: string)
    requires ProperPages(index, pages) && ProperName(name) && ProperName(local)
    ensures Resolve(index, name + FRAGMENT_SEPARATOR + local) == LatestOf(pages, name, local)
  {
    var key := name + FRAGMENT_SEPARATOR + local;
    FindsLatestOffer(index, pages, key);
    OfferedInFull(pages, name, local);
    assert local[|local| - 1] in local;
    LastOf(name + FRAGMENT_SEPARATOR, local);
    SeparatorContained(key);
    assert key[|name|] == '#';
  }

  /** #local: the fragment of the latest page that has one. */
  lemma ResolveLocal<T>(index: map<string, T>, pages: seq<PageBody<T>>, local: string)
    requires ProperPages(index, pages) && '#' !in local
    ensures Resolve(index, FRAGMENT_SEPARATOR + local) == LatestLocal(pages, local)
  {
    var key := LocalKey(local);
    FindsLatestOffer(index, pages, key);
    FindsLatestOffer(index, pages, "");
    OfferedLocally(pages, local);
    NotOffered(pages, "");
    SeparatorContained(key);
    assert key[0] == '#';
    if local != "" {
      assert local[|local| - 1] in local;
      LastOf(FRAGMENT_SEPARATOR, local);
    } else {
      assert key[..|key| - 1] == "";
    }
  }

  /** page#: the default fragment of that page. */
  lemma ResolveTrailing<T>(index: map<string, T>, pages: seq<PageBody<T>>, name: string)
    requires ProperPages(index, pages) && ProperName(name)
    ensures Resolve(index, name + FRAGMENT_SEPARATOR) == LatestOf(pages, name, "")
  {
    var key := name + FRAGMENT_SEPARATOR;
    FindsLatestOffer(index, pages, key);
    FindsLatestOffer(index, pages, name);
    NotOffered(pages, name);
    OfferedInFull(pages, name, "");
    LastOf(name, FRAGMENT_SEPARATOR);
    assert key[..|key| - 1] == name;
  }

  /** name: the default fragment of that page, and only without one a local fragment of this name; the empty name: the
      default fragment of any page. */
  lemma ResolveBare<T>(index: map<string, T>, pages: seq<PageBody<T>>, name: string)
    requires ProperPages(index, pages) && '#' !in name
    ensures Resolve(index, name) ==
            if name != "" && LatestOf(pages, name, "").Some? then LatestOf(pages, name, "") else LatestLocal(pages, name)
  {
    FindsLatestOffer(index, pages, name);
    FindsLatestOffer(index, pages, LocalKey(name));
    OfferedLocally(pages, name);
    NotOffered(pages, "");
    SeparatorContained(name);
    if name != "" {
      OfferedInFull(pages, name, "");
      assert name[|name| - 1] in name;
      assert "" + name == name;
      LastOf("", name);
    }
  }

  function OrElse<T>(a: Option<T>, b: Option<T>): Option<T> {
    if a.Some? then a else b
  }

  /** A plain search through the pages, latest first. A name without separator is a page's default fragment or else a local name;
      one with a separator is a local name, behind its page's name or alone, and its last separator may be too much. */
  function Search<T>(pages: seq<PageBody<T>>, name: string): Option<T> {
    var i := Index(name, FRAGMENT_SEPARATOR);
    if i == -1 then OrElse(if name == "" then None else LatestOf(pages, name, ""), LatestLocal(pages, name))
    else
      var page, local := name[..i], name[i + 1..];
      var tooMuch := HasSuffix(local, FRAGMENT_SEPARATOR);
      if i == 0 then OrElse(LatestLocal(pages, local), if tooMuch then LatestLocal(pages, local[..|local| - 1]) else None)
      else OrElse(LatestOf(pages, page, local), if tooMuch && |local| > 1 then LatestOf(pages, page, local[..|local| - 1]) else None)
  }

  lemma SeparatorAt(name: string, k: int)
    ensures At(name, FRAGMENT_SEPARATOR, k) <==> 0 <= k < |name| && name[k] == '#'
  {
    if 0 <= k < |name| { assert name[k..k + 1] == [name[k]]; }
  }

  /** The first separator of a name. */
  lemma FirstSeparatorIs(name: string)
    requires '#' in name
    ensures var i := Index(name, FRAGMENT_SEPARATOR);
            0 <= i < |name| && name[i] == '#' && forall k :: 0 <= k < i ==> name[k] != '#'
  {
    var i := Index(name, FRAGMENT_SEPARATOR);
    SeparatorContained(name);
    IndexIsFirst(name, FRAGMENT_SEPARATOR);
    SeparatorAt(name, i);
    forall k | 0 <= k < i ensures name[k] != '#' { SeparatorAt(name, k); }
  }

  /** A name falls apart at its first separator. */
  lemma SplitAt(name: string, i: nat)
    requires i < |name| && name[i] == '#' && forall k :: 0 <= k < i ==> name[k] != '#'
    ensures name == name[..i] + FRAGMENT_SEPARATOR + name[i + 1..] && '#' !in name[..i]
  {
  }

  lemma FindBehindPage<T>(index: map<string, T>, pages: seq<PageBody<T>>, page: string, local: string)
    requires ProperPages(index, pages) && ProperName(page)
    ensures Find(index, page + FRAGMENT_SEPARATOR + local) == if local == "" then None else LatestOf(pages, page, local)
  {
    var name := page + FRAGMENT_SEPARATOR + local;
    FindsLatestOffer(index, pages, name);
    if local == "" {
      assert name == page + FRAGMENT_SEPARATOR;
      NotOffered(pages, page);
    } else {
      OfferedInFull(pages, page, local);
    }
  }

  /** The last character of a name behind a page, and the name without it. */
  lemma CutBehindPage(page: string, local: string)
    requires local != ""
    ensures var name := page + FRAGMENT_SEPARATOR + local;
            && '#' in name && HasSuffix(name, FRAGMENT_SEPARATOR) == HasSuffix(local, FRAGMENT_SEPARATOR)
            && name[..|name| - 1] == page + FRAGMENT_SEPARATOR + local[..|local| - 1]
  {
    var name := page + FRAGMENT_SEPARATOR + local;
    assert name[|page|] == '#';
    LastOf(page + FRAGMENT_SEPARATOR, local);
    LastOf("", local);
    assert "" + local == local;
  }

  /** Behind a page's name, whatever the local name. */
  lemma ResolveBehindPage<T>(index: map<string, T>, pages: seq<PageBody<T>>, page: string, local: string)
    requires ProperPages(index, pages) && ProperName(page)
    ensures Resolve(index, page + FRAGMENT_SEPARATOR + local)
         == OrElse(LatestOf(pages, page, local),
                   if HasSuffix(local, FRAGMENT_SEPARATOR) && |local| > 1 then LatestOf(pages, page, local[..|local| - 1]) else None)
  {
    if local == "" {
      assert page + FRAGMENT_SEPARATOR + local == page + FRAGMENT_SEPARATOR;
      ResolveTrailing(index, pages, page);
    } else {
      CutBehindPage(page, local);
      SeparatorContained(page + FRAGMENT_SEPARATOR + local);
      FindBehindPage(index, pages, page, local);
      FindBehindPage(index, pages, page, local[..|local| - 1]);
    }
  }

  /** Behind a separator alone. */
  lemma ResolveAlone<T>(index: map<string, T>, pages: seq<PageBody<T>>, local: string)
    requires ProperPages(index, pages)
    ensures Resolve(index, FRAGMENT_SEPARATOR + local)
         == OrElse(LatestLocal(pages, local),
                   if HasSuffix(local, FRAGMENT_SEPARATOR) then LatestLocal(pages, local[..|local| - 1]) else None)
  {
    var name := LocalKey(local);
    if local == "" {
      ResolveLocal(index, pages, "");
    } else {
      var shorter := local[..|local| - 1];
      FindsLatestOffer(index, pages, name);
      OfferedLocally(pages, local);
      assert name[0] == '#' && '#' in name;
      SeparatorContained(name);
      LastOf(FRAGMENT_SEPARATOR, local);
      LastOf("", local);
      assert "" + local == local;
      assert name[..|name| - 1] == LocalKey(shorter);
      FindsLatestOffer(index, pages, LocalKey(shorter));
      OfferedLocally(pages, shorter);
    }
  }

  /** For every name, the look-up in the index of pages with proper names finds what the search through the pages finds. */
  lemma ResolveIsSearch<T>(index: map<string, T>, pages: seq<PageBody<T>>, name: string)
    requires ProperPages(index, pages)
    ensures Resolve(index, name) == Search(pages, name)
  {
    SeparatorContained(name);
    if '#' !in name {
      ResolveBare(index, pages, name);
    } else {
      var i := Index(name, FRAGMENT_SEPARATOR);
      FirstSeparatorIs(name);
      SplitAt(name, i);
      if i == 0 {
        assert name[..0] + FRAGMENT_SEPARATOR == FRAGMENT_SEPARATOR;
        ResolveAlone(index, pages, name[1..]);
      } else {
        ResolveBehindPage(index, pages, name[..i], name[i + 1..]);
      }
    }
  }
}
