/**
 The bounded cache in front of the token reviews: identities keyed by the
 token's digest, kept for one lifetime, swept and evicted when the cache is
 full. Entries are copied in and out, since callers enrich what they get.
 */
module TokenCache {
  import opened Wrappers

  /** SHA-256 of a token, taken to be injective. */
  datatype Key = Sha256(token: string)

  /** What is known of a caller. */
  datatype Who = Who(role: string, username: string, team: string, workerName: string,
                     namespace: string, serviceAccount: string)

  /** A caller's identity, as an object its holder may change. */
  class Identity {
    var role: string
    var username: string
    var team: string
    var workerName: string
    var namespace: string
    var serviceAccount: string

    constructor (who: Who)
      ensures Value() == who
    {
      role := who.role;
      username := who.username;
      team := who.team;
      workerName := who.workerName;
      namespace := who.namespace;
      serviceAccount := who.serviceAccount;
    }

    function Value(): Who
      reads this
    {
      Who(role, username, team, workerName, namespace, serviceAccount)
    }
  }

  datatype Entry = Entry(identity: Identity, expiry: int)

  /** What the token review server answers. */
  datatype Review = Unreachable(message: string) | Rejected(message: string) | Accepted(username: string)

  /** How a service account's username is read, if it can be. */
  type Parser = string -> Option<Who>

  datatype AuthError = EmptyToken | RequestFailed(message: string) | NotAuthenticated(message: string)
                     | BadUsername(username: string)

  /** One insertion: what a review said of the key's token, stored at a time. */
  datatype Insertion = Insertion(key: Key, review: Review, who: Who, time: int)

  /** The identity is the one the review's answer names. */
  predicate Reviewed(one: Insertion, parse: Parser) {
    Answer(one.review, parse) == Ok(one.who)
  }

  /** What an entry says, and which insertion it comes from. */
  datatype Held = Held(who: Who, expiry: int, serial: nat)

  type Content = map<Key, Held>

  // ----------------------------------------------- contents and their history

  function Expired(content: Content, now: int): set<Key> {
    set key | key in content && !(now < content[key].expiry)
  }

  /** An entry that expires no later than any other. */
  ghost predicate Oldest(content: Content, key: Key) {
    key in content && forall other :: other in content ==> content[key].expiry <= content[other].expiry
  }

  /**
   What the entries say, every insertion so far, and how many of them came
   before the last invalidation.
   */
  datatype Book = Book(content: Content, log: seq<Insertion>, mark: nat)

  /** Every entry comes from the last insertion under its key, after the last invalidation. */
  ghost predicate Logged(book: Book, ttl: int, parse: Parser) {
    match book
    case Book(content, log, mark) =>
      && mark <= |log|
      && (forall i :: 0 <= i < |log| ==> Reviewed(log[i], parse))
      && forall key :: key in content ==>
           var held := content[key];
           && mark <= held.serial < |log|
           && log[held.serial] == Insertion(key, log[held.serial].review, held.who, held.expiry - ttl)
           && NotAfter(log, key, held.serial)
  }

  ghost predicate NotAfter(log: seq<Insertion>, key: Key, i: int) {
    forall j :: 0 <= i < j < |log| ==> log[j].key != key
  }

  predicate Bounded(book: Book, max: int) {
    match book
    case Book(content, _, _) => max > 0 ==> |content| <= max
  }

  /** The content after an insertion has made room where it had to. */
  ghost predicate RoomMade(book: Book, room: Content, max: int, now: int) {
    match book
    case Book(before, _, _) =>
      if max <= 0 || |before| < max then room == before
      else if Expired(before, now) != {} then room == before - Expired(before, now)
      else exists key :: Oldest(before, key) && room == before - {key}
  }

  function Entered(book: Book, one: Insertion, ttl: int): Book {
    Book(book.content[one.key := Held(one.who, one.time + ttl, |book.log|)], book.log + [one], book.mark)
  }

  lemma LoggedInsert(book: Book, one: Insertion, ttl: int, parse: Parser)
    requires Logged(book, ttl, parse) && Reviewed(one, parse)
    ensures Logged(Entered(book, one, ttl), ttl, parse)
  {
  }

  lemma LoggedLess(book: Book, gone: set<Key>, ttl: int, parse: Parser)
    requires Logged(book, ttl, parse)
    ensures Logged(book.(content := book.content - gone), ttl, parse)
  {
  }

  lemma SizeOfLess(content: Content, gone: set<Key>)
    requires gone <= content.Keys
    ensures |content - gone| == |content| - |gone|
  {
    assert (content - gone).Keys == content.Keys - gone;
  }

  /** The content once the entries outside todo have been looked at. */
  function Swept(start: Content, todo: set<Key>, now: int): Content {
    start - (Expired(start, now) - todo)
  }

  lemma SweptEnds(start: Content, now: int)
    ensures Swept(start, start.Keys, now) == start
    ensures Expired(start, now) - start.Keys == {}
    ensures Swept(start, {}, now) == start - Expired(start, now)
    ensures Expired(start, now) - {} == Expired(start, now)
  {
  }

  lemma SweepStep(start: Content, todo: set<Key>, key: Key, now: int)
    requires key in todo && todo <= Swept(start, todo, now).Keys
    ensures start[key] == Swept(start, todo, now)[key]
    ensures todo - {key} <= Swept(start, todo - {key}, now).Keys
    ensures now < start[key].expiry ==>
              && Swept(start, todo - {key}, now) == Swept(start, todo, now)
              && Expired(start, now) - (todo - {key}) == Expired(start, now) - todo
    ensures !(now < start[key].expiry) ==>
              && Swept(start, todo - {key}, now) == Swept(start, todo, now) - {key}
              && |Expired(start, now) - (todo - {key})| == |Expired(start, now) - todo| + 1
  {
    if !(now < start[key].expiry) {
      assert Expired(start, now) - (todo - {key}) == (Expired(start, now) - todo) + {key};
    } else {
      assert Expired(start, now) - (todo - {key}) == Expired(start, now) - todo;
    }
  }

  /** Where a sweep stands: what it removed so far, and what it still has to look at. */
  ghost predicate Sweeping(start: Book, book: Book, todo: set<Key>, n: nat, now: int) {
    && book == start.(content := Swept(start.content, todo, now))
    && todo <= book.content.Keys && n == |Expired(start.content, now) - todo|
  }

  lemma SweepStarts(start: Book, now: int)
    ensures Sweeping(start, start, start.content.Keys, 0, now)
  {
    SweptEnds(start.content, now);
  }

  lemma SweepGoesOn(start: Book, book: Book, todo: set<Key>, n: nat, now: int, key: Key)
    requires Sweeping(start, book, todo, n, now) && key in todo
    ensures key in book.content
    ensures if now < book.content[key].expiry then Sweeping(start, book, todo - {key}, n, now)
            else Sweeping(start, book.(content := book.content - {key}), todo - {key}, n + 1, now)
  {
    SweepStep(start.content, todo, key, now);
  }

  lemma SweepEnds(start: Book, book: Book, n: nat, now: int)
    requires Sweeping(start, book, {}, n, now)
    ensures book == start.(content := start.content - Expired(start.content, now))
    ensures n == |Expired(start.content, now)|
  {
    SweptEnds(start.content, now);
  }

  predicate HitAt(content: Content, key: Key, now: int) {
    key in content && now < content[key].expiry
  }

  /** What a review's answer comes to. */
  function Answer(review: Review, parse: Parser): Result<Who, AuthError> {
    match review
    case Unreachable(message) => Err(RequestFailed(message))
    case Rejected(message) => Err(NotAuthenticated(message))
    case Accepted(username) =>
      match parse(username)
      case None => Err(BadUsername(username))
      case Some(who) => Ok(who)
  }

  /** What each answer of the review server means. */
  lemma AnswerCases(review: Review, parse: Parser)
    ensures Answer(review, parse).Ok? <==> review.Accepted? && parse(review.username).Some?
    ensures review.Accepted? && parse(review.username).Some? ==>
              Answer(review, parse) == Ok(parse(review.username).value)
    ensures review.Accepted? && parse(review.username) == None ==>
              Answer(review, parse) == Err(BadUsername(review.username))
    ensures review.Unreachable? ==> Answer(review, parse) == Err(RequestFailed(review.message))
    ensures review.Rejected? ==> Answer(review, parse) == Err(NotAuthenticated(review.message))
  {
  }

  // --------------------------------------------------------------- the cache

  class TokenReviewAuthenticator {
    var cache: map<Key, Entry>
    const ttl: int
    const cacheMax: int
    const parse: Parser

    /** The history of the cache, and the objects its entries own. */
    ghost var book: Book
    ghost var Repr: set<Identity>

    /** The entries say what the book does, through objects of their own. */
    ghost predicate Mirrored()
      reads this, Repr
    {
      match book
      case Book(content, _, _) =>
        && content.Keys == cache.Keys
        && forall key :: key in cache ==>
             && cache[key].identity in Repr
             && content[key].who == cache[key].identity.Value() && content[key].expiry == cache[key].expiry
    }

    ghost predicate Valid()
      reads this, Repr
    {
      Mirrored() && Logged(book, ttl, parse) && Bounded(book, cacheMax)
    }

    constructor (ttl: int, cacheMax: int, parse: Parser)
      ensures Valid() && book == Book(map[], [], 0) && Repr == {}
      ensures this.ttl == ttl && this.cacheMax == cacheMax && this.parse == parse
    {
      this.ttl := ttl;
      this.cacheMax := cacheMax;
      this.parse := parse;
      cache := map[];
      book := Book(map[], [], 0);
      Repr := {};
    }

    /** A hit is a new object that says what the entry says. */
    method GetFromCache(key: Key, now: int) returns (identity: Identity?)
      requires Valid()
      ensures identity != null <==> HitAt(book.content, key, now)
      ensures identity != null ==> fresh(identity) && identity.Value() == book.content[key].who
    {
      if key in cache && now < cache[key].expiry {
        identity := new Identity(cache[key].identity.Value());
      } else {
        identity := null;
      }
    }

    method Delete(key: Key)
      requires Mirrored()
      modifies this`cache, this`book
      ensures Mirrored() && Repr == old(Repr)
      ensures book == old(book).(content := old(book).content - {key})
    {
      cache := cache - {key};
      book := book.(content := book.content - {key});
    }

    /** Keep a copy of an identity under a key. */
    method Store(key: Key, who: Who, now: int, ghost review: Review) returns (copy: Identity)
      requires Mirrored()
      modifies this
      ensures Mirrored() && book == Entered(old(book), Insertion(key, review, who, now), ttl)
      ensures fresh(copy) && Repr == old(Repr) + {copy}
    {
      copy := new Identity(who);
      cache := cache[key := Entry(copy, now + ttl)];
      book := Entered(book, Insertion(key, review, who, now), ttl);
      Repr := Repr + {copy};
    }

    /** Remove an entry if its expiry is not after now. */
    method SweepOne(key: Key, now: int) returns (gone: bool)
      requires Mirrored() && key in cache
      modifies this`cache, this`book
      ensures Mirrored() && Repr == old(Repr) && gone == !(now < old(book).content[key].expiry)
      ensures book == if gone then old(book).(content := old(book).content - {key}) else old(book)
    {
      gone := !(now < cache[key].expiry);
      if gone {
        Delete(key);
      }
    }

    /** Remove every entry whose expiry is not after now. */
    method SweepExpired(now: int) returns (n: nat)
      requires Mirrored()
      modifies this`cache, this`book
      ensures Mirrored() && Repr == old(Repr)
      ensures book == old(book).(content := old(book).content - Expired(old(book).content, now))
      ensures n == |Expired(old(book).content, now)|
    {
      n := 0;
      var todo := cache.Keys;
      ghost var start := book;
      SweepStarts(start, now);
      while todo != {}
        invariant Mirrored() && Repr == old(Repr)
        invariant Sweeping(start, book, todo, n, now)
        decreases todo
      {
        var key :| key in todo;
        SweepGoesOn(start, book, todo, n, now, key);
        var gone := SweepOne(key, now);
        if gone {
          n := n + 1;
        }
        todo := todo - {key};
      }
      SweepEnds(start, book, n, now);
    }

    /** Remove an entry with the earliest expiry. */
    method EvictOldest()
      requires Mirrored()
      modifies this`cache, this`book
      ensures Mirrored() && Repr == old(Repr)
      ensures old(book).content == map[] ==> book == old(book)
      ensures old(book).content != map[] ==>
                (exists key :: Oldest(old(book).content, key)
                            && book == old(book).(content := old(book).content - {key}))
    {
      var found := false;
      var oldestKey := Sha256("");
      var oldestExp := 0;
      var todo := cache.Keys;
      while todo != {}
        invariant todo <= cache.Keys
        invariant !found ==> todo == cache.Keys
        invariant found ==> oldestKey in cache && oldestExp == cache[oldestKey].expiry
        invariant forall key :: key in cache && key !in todo ==> found && oldestExp <= cache[key].expiry
        decreases todo
      {
        var key :| key in todo;
        if !found || cache[key].expiry < oldestExp {
          oldestKey := key;
          oldestExp := cache[key].expiry;
          found := true;
        }
        todo := todo - {key};
      }
      if found {
        assert Oldest(book.content, oldestKey);
        Delete(oldestKey);
      }
    }

    /** Make room in a full cache. */
    method MakeRoom(now: int) returns (ghost room: Content)
      requires Mirrored()
      modifies this`cache, this`book
      ensures Mirrored() && book == old(book).(content := room) && Repr == old(Repr)
      ensures RoomMade(old(book), room, cacheMax, now)
    {
      assert |cache.Keys| == |cache| && |book.content.Keys| == |book.content|;
      if cacheMax > 0 && |cache| >= cacheMax {
        var n := SweepExpired(now);
        if n == 0 {
          assert Expired(old(book).content, now) == {};
          assert book == old(book);
          EvictOldest();
        }
      }
      room := book.content;
    }

    /** Store a copy of what a review of the key's token said, after making room in a full cache. */
    method PutInCache(key: Key, identity: Identity, sweepTime: int, now: int, ghost review: Review)
      returns (ghost room: Content, ghost copy: Identity)
      requires Valid() && identity !in Repr && Answer(review, parse) == Ok(identity.Value())
      modifies this
      ensures Valid() && fresh(copy) && Repr == old(Repr) + {copy}
      ensures RoomMade(old(book), room, cacheMax, sweepTime)
      ensures book == Entered(old(book).(content := room), Insertion(key, review, identity.Value(), now), ttl)
      ensures identity !in Repr && identity.Value() == old(identity.Value())
    {
      var who := identity.Value();
      room, copy := Insert(key, who, sweepTime, now, review);
      assert identity.Value() == who;
    }

    method Insert(key: Key, who: Who, sweepTime: int, now: int, ghost review: Review)
      returns (ghost room: Content, ghost copy: Identity)
      requires Valid() && Answer(review, parse) == Ok(who)
      modifies this
      ensures Valid() && fresh(copy) && Repr == old(Repr) + {copy}
      ensures RoomMade(old(book), room, cacheMax, sweepTime)
      ensures book == Entered(old(book).(content := room), Insertion(key, review, who, now), ttl)
    {
      ghost var before, one := book, Insertion(key, review, who, now);
      room := MakeRoom(sweepTime);
      InsertKeeps(before, room, cacheMax, sweepTime, ttl, parse, one);
      ghost var made := book;
      copy := Store(key, who, now, review);
      assert book == Entered(made, one, ttl);
    }

    method InvalidateCache()
      requires Valid()
      modifies this`cache, this`book
      ensures Valid() && book == Book(map[], old(book).log, |old(book).log|)
    {
      cache := map[];
      book := Book(map[], book.log, |book.log|);
    }

    /** One sweep of the background cleanup. */
    method Cleanup(now: int) returns (n: nat)
      requires Valid()
      modifies this`cache, this`book
      ensures Valid()
      ensures book == old(book).(content := old(book).content - Expired(old(book).content, now))
      ensures forall key :: key in book.content <==> key in old(book).content && now < old(book).content[key].expiry
    {
      n := SweepExpired(now);
      LoggedLess(old(book), Expired(old(book).content, now), ttl, parse);
      SizeOfLess(old(book).content, Expired(old(book).content, now));
    }

    /** Take in a review's answer: a copy of the identity it names is stored. */
    method Admit(key: Key, review: Review, sweepTime: int, now: int)
      returns (result: Result<Identity, AuthError>, ghost room: Content)
      requires Valid()
      modifies this
      ensures Valid() && fresh(Repr - old(Repr))
      ensures result.Ok? ==> fresh(result.value) && result.value !in Repr
      ensures Admitted(old(book), book, result, review, key, sweepTime, now, room)
    {
      room := book.content;
      match Answer(review, parse)
      case Err(error) =>
        result := Err(error);
      case Ok(who) =>
        var identity;
        identity, room := Enroll(key, who, sweepTime, now, review);
        result := Ok(identity);
    }

    /** Make an identity and store a copy of it. */
    method Enroll(key: Key, who: Who, sweepTime: int, now: int, ghost review: Review)
      returns (identity: Identity, ghost room: Content)
      requires Valid() && Answer(review, parse) == Ok(who)
      modifies this
      ensures Valid() && fresh(Repr - old(Repr))
      ensures fresh(identity) && identity !in Repr && identity.Value() == who
      ensures RoomMade(old(book), room, cacheMax, sweepTime)
      ensures book == Entered(old(book).(content := room), Insertion(key, review, who, now), ttl)
    {
      identity := new Identity(who);
      ghost var copy;
      room, copy := PutInCache(key, identity, sweepTime, now, review);
    }

    /** The answer is given back, and a positive one entered in the book. */
    ghost predicate Admitted(before: Book, after: Book, result: Result<Identity, AuthError>,
                             review: Review, key: Key, sweepTime: int, now: int, room: Content)
      reads if result.Ok? then {result.value} else {}
    {
      match Answer(review, parse)
      case Err(error) => result == Err(error) && after == before
      case Ok(who) =>
        && result.Ok? && result.value.Value() == who
        && RoomMade(before, room, cacheMax, sweepTime)
        && after == Entered(before.(content := room), Insertion(key, review, who, now), ttl)
    }

    /**
     A cached identity, or else the reviewed one, which is stored as well. The
     review's answer and the clock readings are inputs.
     */
    method Authenticate(token: string, readTime: int, review: Review, sweepTime: int, now: int)
      returns (result: Result<Identity, AuthError>, ghost room: Content)
      requires Valid()
      modifies this
      ensures Valid() && fresh(Repr - old(Repr))
      ensures result.Ok? ==> fresh(result.value) && result.value !in Repr
      ensures if token == "" then result == Err(EmptyToken) && book == old(book)
              else if HitAt(old(book).content, Sha256(token), readTime) then
                result.Ok? && result.value.Value() == old(book).content[Sha256(token)].who && book == old(book)
              else Admitted(old(book), book, result, review, Sha256(token), sweepTime, now, room)
    {
      room := book.content;
      if token == "" {
        result := Err(EmptyToken);
      } else {
        var hit := GetFromCache(Sha256(token), readTime);
        if hit != null {
          result := Ok(hit);
        } else {
          result, room := Admit(Sha256(token), review, sweepTime, now);
        }
      }
    }
  }

  /**
   Whatever happens to objects that are not the cache's own, and so to every
   identity it ever gave out, the cache stays as it is.
   */
  twostate lemma OutsideChangesAreHarmless(auth: TokenReviewAuthenticator)
    requires old(auth.Valid()) && unchanged(auth) && forall identity :: identity in auth.Repr ==> unchanged(identity)
    ensures auth.Valid() && auth.book == old(auth.book)
  {
  }

  /**
   Callers may change the identities they hold, got by review or by hit, in any
   way: a later hit still says what the cache's book says.
   */
  method EnrichedCopies(auth: TokenReviewAuthenticator, held: set<Identity>, key: Key, now: int)
    returns (again: Identity?)
    requires auth.Valid() && held !! auth.Repr
    modifies held
    ensures auth.Valid() && auth.book == old(auth.book)
    ensures again != null <==> HitAt(old(auth.book).content, key, now)
    ensures again != null ==> fresh(again) && again.Value() == old(auth.book).content[key].who
  {
    Enrich(held);
    again := auth.GetFromCache(key, now);
  }

  /** Any change whatsoever to some identities. */
  method Enrich(held: set<Identity>)
    modifies held
  {
    var todo := held;
    while todo != {}
      invariant todo <= held
      decreases todo
    {
      var identity :| identity in todo;
      identity.role, identity.username, identity.team := *, *, *;
      identity.workerName, identity.namespace, identity.serviceAccount := *, *, *;
      todo := todo - {identity};
    }
  }

  lemma RoomIsEnough(book: Book, room: Content, max: int, now: int, one: Insertion, ttl: int)
    requires RoomMade(book, room, max, now) && Bounded(book, max)
    ensures Bounded(Entered(book.(content := room), one, ttl), max)
  {
    var after := Entered(book.(content := room), one, ttl).content;
    if max > 0 {
      RoomShrinks(book, room, max, now);
      assert after.Keys == room.Keys + {one.key};
      assert |after.Keys| <= |room.Keys| + 1;
    }
  }

  lemma RoomShrinks(book: Book, room: Content, max: int, now: int)
    requires RoomMade(book, room, max, now) && Bounded(book, max) && 0 < max
    ensures |room| < max
  {
    var before := book.content;
    if |before| >= max {
      if Expired(before, now) != {} {
        SizeOfLess(before, Expired(before, now));
      } else {
        var key :| Oldest(before, key) && room == before - {key};
        SizeOfLess(before, {key});
      }
    }
  }

  /** Making room loses an entry only from a full cache: an expired one, or, if none is, one that expires first. */
  lemma RoomLosesOnly(book: Book, room: Content, max: int, now: int, key: Key)
    requires RoomMade(book, room, max, now) && key in book.content && key !in room
    ensures 0 < max <= |book.content|
    ensures || book.content[key].expiry <= now
            || (&& (forall other :: other in book.content ==>
                      now < book.content[other].expiry && book.content[key].expiry <= book.content[other].expiry)
                && |room| == |book.content| - 1)
  {
    var before := book.content;
    if Expired(before, now) == {} {
      forall other | other in before
        ensures now < before[other].expiry
      {
        assert other !in Expired(before, now);
      }
      var gone :| Oldest(before, gone) && room == before - {gone};
      SizeOfLess(before, {gone});
    }
  }

  /** Once room was made in a full cache nothing expired is left in it. */
  lemma RoomIsFresh(book: Book, room: Content, max: int, now: int)
    requires RoomMade(book, room, max, now) && 0 < max <= |book.content|
    ensures forall key :: key in room ==> now < room[key].expiry
  {
    forall key | key in room
      ensures now < room[key].expiry
    {
      assert key in book.content && room[key] == book.content[key];
      assert key !in Expired(book.content, now);
    }
  }

  lemma RoomIsLogged(book: Book, room: Content, max: int, now: int, ttl: int, parse: Parser)
    requires RoomMade(book, room, max, now) && Logged(book, ttl, parse)
    ensures Logged(book.(content := room), ttl, parse)
  {
  }

  lemma InsertKeeps(book: Book, room: Content, max: int, now: int, ttl: int, parse: Parser, one: Insertion)
    requires RoomMade(book, room, max, now) && Logged(book, ttl, parse) && Bounded(book, max) && Reviewed(one, parse)
    ensures Logged(Entered(book.(content := room), one, ttl), ttl, parse)
    ensures Bounded(Entered(book.(content := room), one, ttl), max)
  {
    RoomIsEnough(book, room, max, now, one, ttl);
    RoomIsLogged(book, room, max, now, ttl, parse);
    LoggedInsert(book.(content := room), one, ttl, parse);
  }

  // --------------------------------------------------------- the main results

  /**
   A hit is what the latest stored review of the key's token said, stored less
   than one lifetime ago and after the last invalidation.
   */
  lemma HitIsRecent(book: Book, ttl: int, parse: Parser, key: Key, now: int)
    requires Logged(book, ttl, parse)
    requires HitAt(book.content, key, now)
    ensures exists i :: book.mark <= i < |book.log|
                     && book.log[i].key == key && Answer(book.log[i].review, parse) == Ok(book.content[key].who)
                     && now - book.log[i].time < ttl
                     && NotAfter(book.log, key, i)
  {
    var i := book.content[key].serial;
    assert book.log[i].key == key && NotAfter(book.log, key, i) && Reviewed(book.log[i], parse);
  }

  /** What the locked sections of the cache do to its book. */
  datatype Op = Put(one: Insertion, sweepTime: int) | Sweep(now: int) | Invalidate

  ghost predicate BookStep(before: Book, op: Op, after: Book, ttl: int, max: int, parse: Parser) {
    match op
    case Put(one, sweepTime) =>
      && Reviewed(one, parse)
      && exists room :: RoomMade(before, room, max, sweepTime)
                        && after == Entered(before.(content := room), one, ttl)
    case Sweep(now) => after == before.(content := before.content - Expired(before.content, now))
    case Invalidate => after == Book(map[], before.log, |before.log|)
  }

  /** A cache from its creation on, over any sequence of locked sections. */
  ghost predicate History(books: seq<Book>, ops: seq<Op>, ttl: int, max: int, parse: Parser) {
    && |books| == |ops| + 1 && books[0] == Book(map[], [], 0)
    && forall k :: 0 <= k < |ops| ==> BookStepAt(books, ops, k, ttl, max, parse)
  }

  ghost predicate BookStepAt(books: seq<Book>, ops: seq<Op>, k: nat, ttl: int, max: int, parse: Parser)
    requires k < |ops| && |books| == |ops| + 1
  {
    BookStep(books[k], ops[k], books[k + 1], ttl, max, parse)
  }

  /** The put that an entry comes from: the last under its key, with no invalidation since. */
  ghost predicate SourceOf(ops: seq<Op>, k: nat, j: nat, key: Key)
    requires k <= |ops|
  {
    && j < k && ops[j].Put? && ops[j].one.key == key
    && forall i :: j < i < k ==> ops[i] != Invalidate && !(ops[i].Put? && ops[i].one.key == key)
  }

  lemma RoomIsPart(book: Book, room: Content, max: int, now: int, key: Key)
    requires RoomMade(book, room, max, now) && key in room
    ensures key in book.content && room[key] == book.content[key]
  {
  }

  /** An entry that survives an operation other than a put under its key was there before. */
  lemma EntryWasThere(before: Book, op: Op, after: Book, ttl: int, max: int, parse: Parser, key: Key)
    requires BookStep(before, op, after, ttl, max, parse) && key in after.content
    ensures op != Invalidate
    ensures !(op.Put? && op.one.key == key) ==>
              key in before.content && after.content[key] == before.content[key]
    ensures op.Put? && op.one.key == key ==>
              && Reviewed(op.one, parse)
              && after.content[key].who == op.one.who && after.content[key].expiry == op.one.time + ttl
  {
    if op.Put? {
      var room :| RoomMade(before, room, max, op.sweepTime) && after == Entered(before.(content := room), op.one, ttl);
      if op.one.key != key {
        RoomIsPart(before, room, max, op.sweepTime, key);
      }
    }
  }

  /**
   An entry goes away only when the cache is invalidated, when it has expired, or
   when a put finds the cache full of unexpired entries none of which expires earlier.
   */
  lemma EntryStaysUnless(before: Book, op: Op, after: Book, ttl: int, max: int, parse: Parser, key: Key)
    requires BookStep(before, op, after, ttl, max, parse) && key in before.content && key !in after.content
    ensures || op == Invalidate
            || (op.Sweep? && before.content[key].expiry <= op.now)
            || (&& op.Put? && 0 < max <= |before.content|
                && (|| before.content[key].expiry <= op.sweepTime
                    || forall other :: other in before.content ==>
                         && op.sweepTime < before.content[other].expiry
                         && before.content[key].expiry <= before.content[other].expiry))
  {
    if op.Put? {
      var room :| RoomMade(before, room, max, op.sweepTime) && after == Entered(before.(content := room), op.one, ttl);
      RoomLosesOnly(before, room, max, op.sweepTime, key);
    }
  }

  lemma {:induction false} EntryHasSource(books: seq<Book>, ops: seq<Op>, ttl: int, max: int, parse: Parser,
                                          k: nat, key: Key) returns (j: nat)
    requires History(books, ops, ttl, max, parse) && k < |books| && key in books[k].content
    ensures SourceOf(ops, k, j, key) && Reviewed(ops[j].one, parse)
    ensures books[k].content[key].who == ops[j].one.who
    ensures books[k].content[key].expiry == ops[j].one.time + ttl
  {
    j := k;
    if k > 0 {
      assert BookStepAt(books, ops, k - 1, ttl, max, parse);
      EntryWasThere(books[k - 1], ops[k - 1], books[k], ttl, max, parse, key);
      if ops[k - 1].Put? && ops[k - 1].one.key == key {
        j := k - 1;
      } else {
        j := EntryHasSource(books, ops, ttl, max, parse, k - 1, key);
      }
    }
  }

  /**
   Over every sequence of operations, a hit is what a review of that very token
   said, stored less than one lifetime ago; no other review was stored for the
   token since, and nothing was invalidated.
   */
  lemma HitsAreReviews(books: seq<Book>, ops: seq<Op>, ttl: int, max: int, parse: Parser,
                       k: nat, token: string, now: int) returns (j: nat)
    requires History(books, ops, ttl, max, parse) && k < |books|
    requires HitAt(books[k].content, Sha256(token), now)
    ensures SourceOf(ops, k, j, Sha256(token)) && now - ops[j].one.time < ttl
    ensures Answer(ops[j].one.review, parse) == Ok(books[k].content[Sha256(token)].who)
  {
    j := EntryHasSource(books, ops, ttl, max, parse, k, Sha256(token));
  }

  /** An entry is a hit exactly for one lifetime after the clock reading its review was stored at. */
  lemma HitIffFresh(books: seq<Book>, ops: seq<Op>, ttl: int, max: int, parse: Parser, k: nat, key: Key, now: int)
    returns (j: nat)
    requires History(books, ops, ttl, max, parse) && k < |books| && key in books[k].content
    ensures SourceOf(ops, k, j, key)
    ensures HitAt(books[k].content, key, now) <==> now - ops[j].one.time < ttl
  {
    j := EntryHasSource(books, ops, ttl, max, parse, k, key);
  }

  lemma {:induction false} AlwaysBounded(books: seq<Book>, ops: seq<Op>, ttl: int, max: int, parse: Parser, k: nat)
    requires History(books, ops, ttl, max, parse) && k < |books|
    ensures Bounded(books[k], max)
  {
    if k > 0 {
      AlwaysBounded(books, ops, ttl, max, parse, k - 1);
      BoundAt(books, ops, ttl, max, parse, k - 1);
    }
  }

  lemma BoundAt(books: seq<Book>, ops: seq<Op>, ttl: int, max: int, parse: Parser, k: nat)
    requires History(books, ops, ttl, max, parse) && k < |ops| && Bounded(books[k], max)
    ensures Bounded(books[k + 1], max)
  {
    assert BookStepAt(books, ops, k, ttl, max, parse);
    StepKeepsBound(books[k], ops[k], books[k + 1], ttl, max, parse);
  }

  lemma StepKeepsBound(before: Book, op: Op, after: Book, ttl: int, max: int, parse: Parser)
    requires BookStep(before, op, after, ttl, max, parse) && Bounded(before, max)
    ensures Bounded(after, max)
  {
    match op
    case Put(one, sweepTime) =>
      var room :| RoomMade(before, room, max, sweepTime) && after == Entered(before.(content := room), one, ttl);
      RoomIsEnough(before, room, max, sweepTime, one, ttl);
    case Sweep(now) => SizeOfLess(before.content, Expired(before.content, now));
    case Invalidate =>
  }

  /** Insertions in the order of the clock, as a monotone clock gives them. */
  ghost predicate Ordered(log: seq<Insertion>) {
    forall i, j :: 0 <= i < j < |log| ==> log[i].time <= log[j].time
  }

  /**
   With a monotone clock the evicted entry is least recently inserted: no other
   entry's insertion came before it at an earlier clock reading.
   */
  lemma EvictedIsLeastRecent(book: Book, ttl: int, parse: Parser, key: Key, other: Key)
    requires Logged(book, ttl, parse) && Oldest(book.content, key) && other in book.content
    ensures var i, j := book.content[key].serial, book.content[other].serial;
            && book.log[i].time <= book.log[j].time
            && (Ordered(book.log) && j < i ==> book.log[j].time == book.log[i].time)
  {
  }
}
