/** The cache in front of the content loaders. A cached page is shared by everyone who loads it: its head is an object that
    merges rewrite in place. */
module CacheLoader {
  import opened Wrappers
  import opened Strings
  import opened Html
  import opened Fragments
  import opened HeadDeduplication
  import opened LruCache
  import opened HeadFixpoints
  import opened SharedHeads
  import C = Cache

  const FILE_URL_PREFIX := "file://"

  /** What the loader looks at in a fetch definition. hash is its cache key. */
  datatype Request = Request(url: string, httpMethod: string, hash: string)

  /** A response body; reading one that is broken ends in an error. */
  datatype Body = Body(bytes: seq<bv8>, broken: bool)

  /** What a plain loader has read: the text of the head, and everything else as a value P, which nothing changes later on. */
  datatype Plain<P> = Plain(head: Option<string>, page: P, size: int, body: Option<Body>)

  /** The answer of a plain loader. An error may come with a content, as for a status that is no success. */
  datatype Answer<P> = Success(plain: Plain<P>) | Failure(error: string, partial: Option<Plain<P>>)

  class Stream {
    var rest: Body

    constructor (b: Body)
      ensures rest == b
    {
      rest := b;
    }

    method ReadAll() returns (bytes: Option<seq<bv8>>)
      modifies this
      ensures bytes == if old(rest).broken then None else Some(old(rest).bytes)
      ensures rest == Body([], old(rest).broken)
    {
      bytes := if rest.broken then None else Some(rest.bytes);
      rest := Body([], rest.broken);
    }
  }

  /** A content without stream, one with a stream that can be read once, and one wrapped around the bytes of its stream,
      which hands out a new reader every time. */
  datatype Content<P> =
    | Parsed(head: Option<StringFragment>, page: P, size: int)
    | Streaming(head: Option<StringFragment>, page: P, size: int, reader: Stream)
    | Wrapped(head: Option<StringFragment>, page: P, size: int, streamBytes: seq<bv8>)
  {
    /** What reading the content to its end yields now. */
    function Readable(): Option<Body>
      reads if Streaming? then {reader} else {}
    {
      match this
      case Parsed(_, _, _) => None
      case Streaming(_, _, _, reader) => Some(reader.rest)
      case Wrapped(_, _, _, streamBytes) => Some(Body(streamBytes, false))
    }

    method Reader() returns (r: Option<Stream>)
      ensures r.None? <==> Parsed?
      ensures Wrapped? ==> fresh(r.value) && r.value.rest == Body(streamBytes, false)
      ensures Streaming? ==> r.value == reader
    {
      match this {
        case Parsed(_, _, _) => r := None;
        case Streaming(_, _, _, reader) => r := Some(reader);
        case Wrapped(_, _, _, streamBytes) =>
          var s := new Stream(Body(streamBytes, false));
          r := Some(s);
      }
    }
  }

  /** The texts that heads were loaded with. */
  type Origins = map<StringFragment, string>

  ghost predicate Extends(less: Origins, more: Origins) {
    forall h :: h in less ==> h in more && more[h] == less[h]
  }

  /** The content is what was read, up to rewriting of its head. */
  ghost predicate Holds<P>(c: Content<P>, plain: Plain<P>, origins: Origins) {
    && c.page == plain.page && c.size == plain.size && (c.head.Some? <==> plain.head.Some?)
    && (c.head.Some? ==> c.head.value in origins && origins[c.head.value] == plain.head.value)
  }

  /** A content that can be given to every caller. */
  ghost predicate Repeats<P>(c: Content<P>, answer: Answer<P>, origins: Origins) {
    && answer.Success? && !c.Streaming? && Holds(c, answer.plain, origins)
    && (match answer.plain.body
        case None => c.Parsed?
        case Some(body) => c.Wrapped? && c.streamBytes == body.bytes && !body.broken)
  }

  ghost predicate Shows<P>(answer: Answer<P>, content: Option<Content<P>>, error: Option<string>, origins: Origins)
    reads if content.Some? && content.value.Streaming? then {content.value.reader} else {}
  {
    match answer
    case Failure(e, None) => content == None && error == Some(e)
    case Failure(e, Some(plain)) =>
      content.Some? && error == Some(e) && Holds(content.value, plain, origins) && content.value.Readable() == plain.body
    case Success(plain) =>
      && content.Some? && Holds(content.value, plain, origins)
      && ((plain.body.Some? ==> !plain.body.value.broken) ==> error == None && content.value.Readable() == plain.body)
  }

  // ------------------------------------------------------------------------------------------- merges

  /** Contents with their priorities, in the order in which they are added to a merge. */
  type Parts<P> = seq<(Content<P>, int)>

  function HeadsOf<P>(parts: Parts<P>): seq<StringFragment> {
    if parts == [] then []
    else
      var n := |parts| - 1;
      HeadsOf(parts[..n]) + if parts[n].0.head.Some? then [parts[n].0.head.value] else []
  }

  /** These are the heads of the parts at these places, in order, and no other part has one. */
  ghost predicate InOrder<P>(parts: Parts<P>, heads: seq<StringFragment>, at: seq<nat>) {
    && |at| == |heads| && (forall i, j :: 0 <= i < j < |at| ==> at[i] < at[j])
    && (forall k :: 0 <= k < |at| ==> at[k] < |parts| && parts[at[k]].0.head == Some(heads[k]))
    && (forall i: nat :: i < |parts| && parts[i].0.head.Some? ==> i in at)
  }

  lemma OneMoreHead<P>(front: Parts<P>, part: (Content<P>, int), heads: seq<StringFragment>, at: seq<nat>)
    requires InOrder(front, heads, at) && part.0.head.Some?
    ensures InOrder(front + [part], heads + [part.0.head.value], at + [|front|])
  {
    var parts, at' := front + [part], at + [|front|];
    forall i: nat | i < |parts| && parts[i].0.head.Some? ensures i in at' {
      if i < |front| {
        assert parts[i] == front[i] && i in at;
      } else {
        assert at'[|at|] == i;
      }
    }
  }

  lemma NoMoreHead<P>(front: Parts<P>, part: (Content<P>, int), heads: seq<StringFragment>, at: seq<nat>)
    requires InOrder(front, heads, at) && part.0.head.None?
    ensures InOrder(front + [part], heads, at)
  {
    var parts := front + [part];
    assert forall i :: 0 <= i < |front| ==> parts[i] == front[i];
  }

  /** The heads are those of the parts that have one, in the order of the parts. */
  lemma {:induction false} HeadsInOrder<P>(parts: Parts<P>) returns (at: seq<nat>)
    ensures InOrder(parts, HeadsOf(parts), at)
  {
    if parts == [] {
      at := [];
    } else {
      var n := |parts| - 1;
      at := HeadsInOrder(parts[..n]);
      assert parts == parts[..n] + [parts[n]];
      if parts[n].0.head.Some? {
        OneMoreHead(parts[..n], parts[n], HeadsOf(parts[..n]), at);
        at := at + [n];
      } else {
        NoMoreHead(parts[..n], parts[n], HeadsOf(parts[..n]), at);
      }
    }
  }

  ghost predicate Prioritized<P>(parts: Parts<P>) {
    exists i :: 0 <= i < |parts| && parts[i].1 > 0
  }

  /** The contents of heads with this history. */
  ghost function Current(heads: seq<StringFragment>, origins: Origins, log: seq<Rewrite>, tokenize: string -> seq<Token>)
    : map<StringFragment, string>
  {
    map h | h in heads && h in origins :: Replay(origins[h], h, log, tokenize)
  }

  /** What a merge adds to the history. */
  ghost function MergeLog<P>(parts: Parts<P>, origins: Origins, log: seq<Rewrite>, tokenize: string -> seq<Token>): seq<Rewrite>
    requires forall h :: h in HeadsOf(parts) ==> h in origins
  {
    if Prioritized(parts) then Rewrites(HeadsOf(parts), Current(HeadsOf(parts), origins, log, tokenize), map[], [], tokenize) else []
  }

  ghost function Replayed(h: StringFragment, origins: Origins, log: seq<Rewrite>, tokenize: string -> seq<Token>): string
    requires h in origins
  {
    Replay(origins[h], h, log, tokenize)
  }

  /** A merge's rewrites are recorded for its heads, and change nothing for others. */
  lemma HeadReplayed(h: StringFragment, origins: Origins, heads: seq<StringFragment>, before: map<StringFragment, string>,
                     log: seq<Rewrite>, tokenize: string -> seq<Token>)
    requires h in origins && (forall x :: x in heads ==> x in before) && Reads(tokenize)
    requires h in heads ==> before[h] == Replayed(h, origins, log, tokenize)
    ensures var after := AfterPass(heads, before, map[], tokenize);
            Replayed(h, origins, log + Rewrites(heads, before, map[], [], tokenize), tokenize)
            == if h in heads && h in after then after[h] else Replayed(h, origins, log, tokenize)
  {
    ReplayConcat(origins[h], h, log, Rewrites(heads, before, map[], [], tokenize), tokenize);
    if h in heads {
      PassIsReplay(heads, before, map[], [], tokenize, h);
    } else {
      RewritesOfHeads(heads, before, map[], [], tokenize);
      ReplayOfOthers(Replayed(h, origins, log, tokenize), h, Rewrites(heads, before, map[], [], tokenize), tokenize);
    }
  }

  lemma RewritesFaithful(origins: Origins, heads: seq<StringFragment>, before: map<StringFragment, string>, log: seq<Rewrite>,
                         tokenize: string -> seq<Token>)
    requires (forall r :: r in log ==> r.head in origins) && Faithful(log) && Reads(tokenize)
    requires forall h :: h in heads ==> h in origins && h in before
    ensures var all := log + Rewrites(heads, before, map[], [], tokenize); Faithful(all) && forall r :: r in all ==> r.head in origins
  {
    RewritesOfHeads(heads, before, map[], [], tokenize);
  }

  class CachingContentLoader<P(!new,==)> {
    const cache: C.Cache<Content<P>>
    const fileLoader: Request -> Answer<P>
    const httpLoader: Request -> Answer<P>
    const readableFromCache: Request -> bool
    const cacheable: (Request, P) -> bool
    const tokenize: string -> seq<Token>
    /** Every head handed out so far, and what merges have done to them. */
    ghost var origins: Origins
    ghost var log: seq<Rewrite>

    constructor (c: C.Cache<Content<P>>, file: Request -> Answer<P>, http: Request -> Answer<P>,
                 readable: Request -> bool, storable: (Request, P) -> bool, t: string -> seq<Token>)
      ensures cache == c && fileLoader == file && httpLoader == http && readableFromCache == readable && cacheable == storable && tokenize == t
      ensures origins == map[] && log == []
      ensures c.Valid() && c.entries == [] && KeyDecides() && Reads(t) ==> Valid()
    {
      cache, fileLoader, httpLoader, readableFromCache, cacheable, tokenize := c, file, http, readable, storable, t;
      origins, log := map[], [];
    }

    /** The plain loader: files by their scheme, everything else by HTTP. */
    function Origin(request: Request): Answer<P> {
      if HasPrefix(request.url, FILE_URL_PREFIX) then fileLoader(request) else httpLoader(request)
    }

    /** Files are told by the scheme of their URL. */
    lemma FilesByScheme(request: Request)
      ensures |request.url| >= 7 && request.url[..7] == "file://" ==> Origin(request) == fileLoader(request)
      ensures |request.url| < 7 || request.url[..7] != "file://" ==> Origin(request) == httpLoader(request)
    {
    }

    /** What the origin answers depends on nothing but the cache key. */
    ghost predicate KeyDecides() {
      forall r: Request, r': Request :: r.hash == r'.hash ==> Origin(r) == Origin(r')
    }

    /** Every head has the text that its history makes of the text it was loaded with. */
    ghost predicate Recorded()
      reads this, origins.Keys
    {
      && (forall h :: h in origins ==> h.content == Replay(origins[h], h, log, tokenize))
      && (forall r :: r in log ==> r.head in origins) && Faithful(log)
    }

    ghost predicate StoredRepeats(entries: seq<Entry<Content<P>>>)
      reads `origins
    {
      forall e, r: Request :: e in entries && r.hash == e.key ==> Repeats(e.cacheObject, Origin(r), origins)
    }

    ghost predicate Cached()
      reads `origins, cache
    {
      cache.Valid() && StoredRepeats(cache.entries)
    }

    ghost predicate Valid()
      reads this, cache, origins.Keys
    {
      KeyDecides() && Reads(tokenize) && Recorded() && Cached()
    }

    /** The head has the text it was loaded with if and only if the tags of the heads it was merged with left that text alone. */
    ghost predicate IntactIfUntouched(h: StringFragment)
      reads this, h
    {
      h in origins && (h.content == origins[h] <==> Untouched(origins[h], h, log, tokenize))
    }

    lemma HeadIntactExactly(h: StringFragment)
      requires Reads(tokenize) && Recorded() && h in origins
      ensures IntactIfUntouched(h)
    {
      IntactExactly(origins[h], h, log, tokenize);
    }

    /** A content that the strategy allows to keep, and whose bytes, if it has a body, can be read to the end. */
    predicate MayKeep(request: Request) {
      match Origin(request)
      case Failure(_, _) => false
      case Success(plain) => cacheable(request, plain.page) && (plain.body.None? || !plain.body.value.broken)
    }

    /** The stream of a content that may be kept breaks off. */
    predicate BreaksOff(request: Request) {
      match Origin(request)
      case Failure(_, _) => false
      case Success(plain) => cacheable(request, plain.page) && plain.body.Some? && plain.body.value.broken
    }

    /** The cache with what was loaded in front. */
    function Keeping(s: State<Content<P>>, request: Request, later: int, c: Content<P>): State<Content<P>>
      requires cache.limits.Valid()
    {
      SetStep(cache.limits, s, Entry(request.hash, request.url, c.size, later, c))
    }

    /** What a load returns and leaves in the cache. */
    ghost predicate Leaves(request: Request, now: int, later: int, before: State<Content<P>>, content: Option<Content<P>>,
                           error: Option<string>, after: State<Content<P>>)
    {
      var asked := request.httpMethod == "GET" && readableFromCache(request);
      var (looked, hit) := if asked then GetStep(cache.limits, before, now, request.hash) else (before, None);
      if hit.Some? then content == hit && error == None && after == looked
      else
        && (error.Some? <==> Origin(request).Failure? || BreaksOff(request))
        && (MayKeep(request) ==> cache.limits.Valid() && content.Some? && after == Keeping(looked, request, later, content.value))
        && (!MayKeep(request) ==> after == looked)
    }

    /** A hit hands out the object that is stored; anything else comes from the plain loader, and is stored if and only if the strategy
        allows it, there is no error, and the body can be read. */
    method Load(request: Request, now: int, later: int) returns (content: Option<Content<P>>, error: Option<string>)
      requires Valid()
      modifies cache, `origins
      ensures Valid() && Extends(old(origins), origins) && fresh(origins.Keys - old(origins.Keys))
      ensures Shows(Origin(request), content, error, origins)
      ensures content.Some? && content.value.head.Some? ==> IntactIfUntouched(content.value.head.value)
      ensures content.Some? && content.value.Streaming? ==> fresh(content.value.reader)
      ensures Leaves(request, now, later, old(cache.Value()), content, error, cache.Value())
    {
      var fromCache := LookUp(request, now);
      if fromCache.Some? {
        return fromCache, None;
      }
      content, error := LoadAndKeep(request, later);
    }

    /** What the plain loader delivers without an error is stored, if it may be. */
    method LoadAndKeep(request: Request, later: int) returns (content: Option<Content<P>>, error: Option<string>)
      requires Valid()
      modifies cache, `origins
      ensures Valid() && Extends(old(origins), origins) && fresh(origins.Keys - old(origins.Keys))
      ensures Shows(Origin(request), content, error, origins)
      ensures content.Some? && content.value.head.Some? ==> IntactIfUntouched(content.value.head.value)
      ensures content.Some? && content.value.Streaming? ==> fresh(content.value.reader)
      ensures error.Some? <==> Origin(request).Failure? || BreaksOff(request)
      ensures MayKeep(request) ==> content.Some? && cache.Value() == Keeping(old(cache.Value()), request, later, content.value)
      ensures !MayKeep(request) ==> cache.Value() == old(cache.Value())
    {
      content, error := LoadOrigin(request);
      assert Shows(Origin(request), content, error, origins);
      if error.None? && cacheable(request, content.value.page) {
        content, error := Keep(request, later, content.value);
      }
      if content.Some? && content.value.head.Some? { HeadIntactExactly(content.value.head.value); }
    }

    method LookUp(request: Request, now: int) returns (hit: Option<Content<P>>)
      requires Valid()
      modifies cache
      ensures Valid()
      ensures (cache.Value(), hit) == if request.httpMethod == "GET" && readableFromCache(request)
                                      then GetStep(cache.limits, old(cache.Value()), now, request.hash) else (old(cache.Value()), None)
      ensures hit.Some? ==> !hit.value.Streaming? && Shows(Origin(request), hit, None, origins)
      ensures hit.Some? && hit.value.head.Some? ==> IntactIfUntouched(hit.value.head.value)
    {
      hit := None;
      if request.httpMethod == "GET" && readableFromCache(request) {
        hit := GetStored(request, now);
        if hit.Some? && hit.value.head.Some? { HeadIntactExactly(hit.value.head.value); }
      }
    }

    method GetStored(request: Request, now: int) returns (hit: Option<Content<P>>)
      requires Valid()
      modifies cache
      ensures Valid() && (cache.Value(), hit) == GetStep(cache.limits, old(cache.Value()), now, request.hash)
      ensures hit.Some? ==> Repeats(hit.value, Origin(request), origins)
    {
      ghost var before := cache.Value();
      hit := cache.Get(now, request.hash);
      GetKeepsEntries(cache.limits, before, now, request.hash);
    }

    /** A content that may be cached: its stream is read and its bytes are kept. */
    method Keep(request: Request, now: int, c: Content<P>) returns (content: Option<Content<P>>, error: Option<string>)
      requires Valid() && Origin(request).Success? && Holds(c, Origin(request).plain, origins)
      requires !c.Wrapped? && c.Readable() == Origin(request).plain.body
      modifies cache, if c.Streaming? then {c.reader} else {}
      ensures Valid() && Shows(Origin(request), content, error, origins)
      ensures content.Some? && content.value.head == c.head && (content.value.Streaming? ==> content.value == c)
      ensures var body := Origin(request).plain.body;
              if body.None? || !body.value.broken
              then error == None && cache.Value() == Keeping(old(cache.Value()), request, now, content.value)
              else error.Some? && cache.Value() == old(cache.Value())
    {
      var reader := c.Reader();
      if reader.Some? {
        var bytes := reader.value.ReadAll();
        if bytes.None? {
          return Some(c), Some("read error");
        }
        var cw := Wrapped(c.head, c.page, c.size, bytes.value);
        Store(request, now, cw);
        return Some(cw), None;
      } else {
        Store(request, now, c);
        return Some(c), None;
      }
    }

    method Store(request: Request, now: int, c: Content<P>)
      requires Valid() && Repeats(c, Origin(request), origins)
      modifies cache
      ensures Valid() && cache.Value() == Keeping(old(cache.Value()), request, now, c)
    {
      ghost var before := cache.Value();
      cache.Set(now, request.hash, request.url, c.size, c);
      SetKeepsEntries(cache.limits, before, Entry(request.hash, request.url, c.size, now, c));
    }

    method LoadOrigin(request: Request) returns (content: Option<Content<P>>, error: Option<string>)
      requires Valid()
      modifies `origins
      ensures Valid() && Extends(old(origins), origins) && fresh(origins.Keys - old(origins.Keys))
      ensures match Origin(request)
              case Failure(e, None) => content == None && error == Some(e)
              case Failure(e, Some(plain)) => error == Some(e) && IsNew(content, plain)
              case Success(plain) => error == None && IsNew(content, plain)
      ensures content.Some? && content.value.Streaming? ==> fresh(content.value.reader)
    {
      match Origin(request) {
        case Failure(e, None) =>
          content, error := None, Some(e);
        case Failure(e, Some(plain)) =>
          var c := NewContent(plain);
          content, error := Some(c), Some(e);
        case Success(plain) =>
          var c := NewContent(plain);
          content, error := Some(c), None;
      }
    }

    ghost predicate IsNew(content: Option<Content<P>>, plain: Plain<P>)
      reads this, if content.Some? && content.value.Streaming? then {content.value.reader} else {}
    {
      content.Some? && !content.value.Wrapped? && Holds(content.value, plain, origins) && content.value.Readable() == plain.body
    }

    /** The objects that a plain loader creates. */
    method NewContent(plain: Plain<P>) returns (c: Content<P>)
      requires Valid()
      modifies `origins
      ensures Valid() && Extends(old(origins), origins) && fresh(origins.Keys - old(origins.Keys))
      ensures !c.Wrapped? && Holds(c, plain, origins) && c.Readable() == plain.body
      ensures c.Streaming? ==> fresh(c.reader)
    {
      var head := None;
      if plain.head.Some? {
        var h := NewHead(plain.head.value);
        head := Some(h);
      }
      match plain.body {
        case None =>
          c := Parsed(head, plain.page, plain.size);
        case Some(body) =>
          var s := new Stream(body);
          c := Streaming(head, plain.page, plain.size, s);
      }
    }

    method NewHead(text: string) returns (h: StringFragment)
      requires Recorded()
      modifies `origins
      ensures Recorded() && fresh(h) && origins == old(origins)[h := text]
    {
      h := new StringFragment(text);
      ReplayOfOthers(text, h, log, tokenize);
      origins := origins[h := text];
    }

    /** A merge of contents that were loaded: the backward pass over their heads takes place if one of them has a positive
        priority, and rewrites them wherever they are held. */
    method Merge(parts: Parts<P>)
      requires Valid() && forall h :: h in HeadsOf(parts) ==> h in origins
      modifies `log, HeadsOf(parts)`content
      ensures Valid() && log == old(log) + MergeLog(parts, origins, old(log), tokenize)
      ensures Prioritized(parts) ==>
                Contents(HeadsOf(parts)) == AfterPass(HeadsOf(parts), old(Contents(HeadsOf(parts))), map[], tokenize)
      ensures !Prioritized(parts) ==> Contents(HeadsOf(parts)) == old(Contents(HeadsOf(parts)))
    {
      MergeHeads(parts);
    }

    lemma ContentsAreCurrent(heads: seq<StringFragment>)
      requires Recorded() && forall h :: h in heads ==> h in origins
      ensures Contents(heads) == Current(heads, origins, log, tokenize)
    {
    }

    method MergeHeads(parts: Parts<P>)
      requires Reads(tokenize) && Recorded() && forall h :: h in HeadsOf(parts) ==> h in origins
      modifies `log, HeadsOf(parts)`content
      ensures Recorded() && log == old(log) + MergeLog(parts, origins, old(log), tokenize)
      ensures Prioritized(parts) ==>
                Contents(HeadsOf(parts)) == AfterPass(HeadsOf(parts), old(Contents(HeadsOf(parts))), map[], tokenize)
      ensures !Prioritized(parts) ==> Contents(HeadsOf(parts)) == old(Contents(HeadsOf(parts)))
    {
      ghost var added := MergeLog(parts, origins, log, tokenize);
      var heads, prioritized := CollectHeads(parts);
      if prioritized {
        ContentsAreCurrent(heads);
        assert added == Rewrites(heads, Contents(heads), map[], [], tokenize);
        RewriteShared(heads);
      }
      assert log == old(log) + added;
    }

    static method CollectHeads(parts: Parts<P>) returns (heads: seq<StringFragment>, prioritized: bool)
      ensures heads == HeadsOf(parts) && (prioritized <==> Prioritized(parts))
    {
      heads, prioritized := [], false;
      var i := 0;
      while i < |parts|
        invariant 0 <= i <= |parts| && heads == HeadsOf(parts[..i])
        invariant prioritized <==> Prioritized(parts[..i])
      {
        assert parts[..i + 1][..i] == parts[..i];
        PrioritizedSnoc(parts, i);
        if parts[i].0.head.Some? {
          heads := heads + [parts[i].0.head.value];
        }
        if parts[i].1 > 0 {
          prioritized := true;
        }
        i := i + 1;
      }
      assert parts[..i] == parts;
    }

    static lemma PrioritizedSnoc(parts: Parts<P>, i: nat)
      requires i < |parts|
      ensures Prioritized(parts[..i + 1]) <==> Prioritized(parts[..i]) || parts[i].1 > 0
    {
      assert parts[..i + 1][i] == parts[i] && forall k :: 0 <= k < i ==> parts[..i + 1][k] == parts[..i][k];
    }

    /** If the pass did to the heads what was added to the history, every head still has the text that the history says. */
    twostate lemma RecordedAgain(heads: seq<StringFragment>)
      requires Reads(tokenize) && old(Recorded()) && origins == old(origins) && forall h :: h in heads ==> h in origins
      requires log == old(log) + Rewrites(heads, old(Contents(heads)), map[], [], tokenize)
      requires Contents(heads) == AfterPass(heads, old(Contents(heads)), map[], tokenize)
      requires forall h :: h in origins && h !in heads ==> h.content == old(h.content)
      ensures Recorded()
    {
      ghost var before := old(Contents(heads));
      RewritesFaithful(origins, heads, before, old(log), tokenize);
      forall h | h in origins ensures h.content == Replay(origins[h], h, log, tokenize) {
        HeadReplayed(h, origins, heads, before, old(log), tokenize);
        if h in heads { assert Contents(heads)[h] == h.content; }
      }
    }

    method RewriteShared(heads: seq<StringFragment>)
      requires Reads(tokenize) && Recorded() && forall h :: h in heads ==> h in origins
      modifies `log, heads`content
      ensures Recorded() && log == old(log) + Rewrites(heads, old(Contents(heads)), map[], [], tokenize)
      ensures Contents(heads) == AfterPass(heads, old(Contents(heads)), map[], tokenize)
    {
      log := log + Rewrites(heads, Contents(heads), map[], [], tokenize);
      RewriteHeads(heads, tokenize);
      RecordedAgain(heads);
    }

    /** A GET request that may be read from the cache gets the object stored at its hash, if that is young enough. */
    lemma HitIsHandedOut(request: Request, now: int, later: int, before: State<Content<P>>, content: Option<Content<P>>,
                         error: Option<string>, after: State<Content<P>>, k: nat)
      requires Leaves(request, now, later, before, content, error, after)
      requires request.httpMethod == "GET" && readableFromCache(request) && DistinctKeys(before.entries) && k < |before.entries|
      requires before.entries[k].key == request.hash && now - before.entries[k].fetchTime < cache.limits.maxAge
      ensures content == Some(before.entries[k].cacheObject) && error == None
      ensures after.entries != [] && after.entries[0] == before.entries[k] && after.hits == before.hits + 1
    {
      LookupFacts(before.entries, request.hash);
    }

    /** No other request is looked up in the cache. */
    lemma OthersAreNotAsked(request: Request, now: int, later: int, before: State<Content<P>>, content: Option<Content<P>>,
                            error: Option<string>, after: State<Content<P>>)
      requires cache.limits.Valid() && Leaves(request, now, later, before, content, error, after)
      ensures after.hits + after.misses
           == before.hits + before.misses + if request.httpMethod == "GET" && readableFromCache(request) then 1 else 0
    {
    }

    /** After a miss, a page that the strategy allows to keep is found at its hash as long as it is young enough, with the object that
        was handed out; one that the strategy refuses is not stored. */
    lemma KeptIsFound(request: Request, now: int, later: int, before: State<Content<P>>, content: Option<Content<P>>, error: Option<string>,
                      after: State<Content<P>>, plain: Plain<P>, soon: int)
      requires cache.limits.Valid() && Leaves(request, now, later, before, content, error, after)
      requires request.httpMethod != "GET" || !readableFromCache(request) || GetStep(cache.limits, before, now, request.hash).1.None?
      requires Origin(request) == Success(plain)
      ensures cacheable(request, plain.page) && (plain.body.Some? ==> !plain.body.value.broken) ==>
                && content.Some? && error == None
                && (content.value.size <= cache.limits.maxSizeBytes && soon - later < cache.limits.maxAge ==>
                      && GetStep(cache.limits, after, soon, request.hash).1 == content
                      && after.entries[..1] == [Entry(request.hash, request.url, content.value.size, later, content.value)])
      ensures !cacheable(request, plain.page) ==>
                error == None && (forall e :: e in after.entries ==> e in before.entries)
    {
      GetKeepsEntries(cache.limits, before, now, request.hash);
      if MayKeep(request) {
        var looked := if request.httpMethod == "GET" && readableFromCache(request) then GetStep(cache.limits, before, now, request.hash).0
                      else before;
        if content.value.size <= cache.limits.maxSizeBytes && soon - later < cache.limits.maxAge {
          SetIsFound(cache.limits, looked, Entry(request.hash, request.url, content.value.size, later, content.value), soon);
        }
      }
    }

    method PurgeEntries(keys: seq<string>)
      requires Valid()
      modifies cache
      ensures Valid() && cache.entries == C.WithoutAll(old(cache.entries), keys)
    {
      WithoutAllKeeps(cache.entries, keys);
      var _ := cache.PurgeEntries(keys);
    }

    method PurgeOldEntries(clock: string -> int)
      requires Valid()
      modifies cache
      ensures Valid() && cache.entries == C.Young(old(cache.entries), clock, cache.limits.maxAge)
    {
      YoungKeeps(cache.entries, clock, cache.limits.maxAge);
      var _ := cache.PurgeOldEntries(clock);
    }

    method Invalidate()
      requires Valid()
      modifies cache
      ensures Valid() && cache.entries == []
    {
      cache.Invalidate();
    }
  }

  lemma SetIsFound<V>(limits: Limits, s: State<V>, e: Entry<V>, now: int)
    requires limits.Valid() && e.size <= limits.maxSizeBytes && now - e.fetchTime < limits.maxAge
    ensures GetStep(limits, SetStep(limits, s, e), now, e.key).1 == Some(e.cacheObject)
    ensures SetStep(limits, s, e).entries != [] && SetStep(limits, s, e).entries[..1] == [e]
  {
    var all := [e] + Without(s.entries, e.key);
    assert all[..1] == [e] && [e][1..] == [] && TotalSize([e]) == e.size + TotalSize([e][1..]);
    assert Fits(limits, all[..1]);
    assert SetStep(limits, s, e).entries[0] == e;
  }

  lemma GetKeepsEntries<V>(limits: Limits, s: State<V>, now: int, key: string)
    ensures forall e :: e in GetStep(limits, s, now, key).0.entries ==> e in s.entries
    ensures GetStep(limits, s, now, key).1.Some? ==>
              exists e :: e in s.entries && e.key == key && e.cacheObject == GetStep(limits, s, now, key).1.value
  {
    LookupFacts(s.entries, key);
    WithoutKeeps(s.entries, key);
  }

  lemma WithoutKeeps<V>(entries: seq<Entry<V>>, key: string)
    ensures forall e :: e in Without(entries, key) ==> e in entries
  {
    forall e | e in Without(entries, key) ensures e in entries { WithoutFacts(entries, key); }
  }

  lemma SetKeepsEntries<V>(limits: Limits, s: State<V>, entry: Entry<V>)
    requires limits.Valid()
    ensures forall e :: e in SetStep(limits, s, entry).entries ==> e == entry || e in s.entries
  {
    WithoutKeeps(s.entries, entry.key);
    var all := [entry] + Without(s.entries, entry.key);
    assert forall e :: e in all ==> e == entry || e in Without(s.entries, entry.key);
    assert forall e :: e in SetStep(limits, s, entry).entries ==> e in all;
  }

  lemma {:induction false} WithoutAllKeeps<V>(entries: seq<Entry<V>>, keys: seq<string>)
    ensures forall e :: e in C.WithoutAll(entries, keys) ==> e in entries
  {
    if keys != [] {
      WithoutAllKeeps(entries, keys[..|keys| - 1]);
      WithoutKeeps(C.WithoutAll(entries, keys[..|keys| - 1]), keys[|keys| - 1]);
    }
  }

  lemma {:induction false} YoungKeeps<V>(entries: seq<Entry<V>>, clock: string -> int, maxAge: int)
    ensures forall e :: e in C.Young(entries, clock, maxAge) ==> e in entries
  {
    if entries != [] {
      YoungKeeps(entries[1..], clock, maxAge);
      assert forall e :: e in entries <==> e == entries[0] || e in entries[1..];
    }
  }
}
