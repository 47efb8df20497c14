/**
 The purge of one server's credential keys: an escaped glob pattern, a SCAN
 loop and a DEL for every key it returns
 (packages/data-layer/src/credentials-store.ts, packages/data-layer/src/queue-id.ts).
 */
module RedisPurge {
  import opened JsString

  // ---------- Redis glob patterns ----------

  /** A unit against a bracket class whose opening bracket has been read: hit, and what follows the class. */
  function ReadClass(p: Str, c: Unit, hit: bool): (r: (bool, Str))
    ensures |r.1| <= |p|
  {
    if |p| >= 2 && p[0] == BACKSLASH then ReadClass(p[2..], c, hit || p[1] == c)
    else if p == [] then (hit, [])
    else if p[0] == RBRACKET then (hit, p[1..])
    else if |p| >= 3 && p[1] == HYPHEN then
      var low, high := if p[0] <= p[2] then p[0] else p[2], if p[0] <= p[2] then p[2] else p[0];
      ReadClass(p[3..], c, hit || low <= c <= high)
    else ReadClass(p[1..], c, hit || p[0] == c)
  }

  const HYPHEN: Unit := 45

  /** Does the whole key match the glob? */
  predicate Matches(p: Str, s: Str)
    decreases |p| + |s|
  {
    if p == [] then s == []
    else if p[0] == STAR then Matches(p[1..], s) || (s != [] && Matches(p, s[1..]))
    else if s == [] then false
    else if p[0] == QUESTION then Matches(p[1..], s[1..])
    else if p[0] == LBRACKET then
      var negated := |p| >= 2 && p[1] == CARET;
      var r := ReadClass(if negated then p[2..] else p[1..], s[0], false);
      r.0 != negated && Matches(r.1, s[1..])
    else if p[0] == BACKSLASH && |p| >= 2 then p[1] == s[0] && Matches(p[2..], s[1..])
    else p[0] == s[0] && Matches(p[1..], s[1..])
  }

  predicate Special(c: Unit) {
    c == BACKSLASH || c == STAR || c == QUESTION || c == LBRACKET || c == RBRACKET
  }

  /** `escapeRedisGlob` */
  function Escape(s: Str): Str {
    if s == [] then [] else (if Special(s[0]) then [BACKSLASH, s[0]] else [s[0]]) + Escape(s[1..])
  }

  lemma {:induction false} StarMatchesAll(s: Str)
    ensures Matches([STAR], s)
  {
    if s != [] {
      StarMatchesAll(s[1..]);
    } else {
      assert [STAR][1..] == [];
    }
  }

  lemma EscapeStep(prefix: Str, rest: Str)
    requires prefix != []
    ensures Escape(prefix) + rest ==
      (if Special(prefix[0]) then [BACKSLASH, prefix[0]] else [prefix[0]]) + (Escape(prefix[1..]) + rest)
  {
    ConcatAssociates(if Special(prefix[0]) then [BACKSLASH, prefix[0]] else [prefix[0]], Escape(prefix[1..]), rest);
  }

  /** One unit of an escaped prefix matches itself and nothing else. */
  lemma UnitMatches(c: Unit, rest: Str, s: Str)
    ensures Matches((if Special(c) then [BACKSLASH, c] else [c]) + rest, s) <==>
      s != [] && s[0] == c && Matches(rest, s[1..])
  {
    var p := (if Special(c) then [BACKSLASH, c] else [c]) + rest;
    if Special(c) {
      assert p[0] == BACKSLASH && p[1] == c && p[2..] == rest;
    } else {
      assert p[0] == c && p[1..] == rest;
    }
  }

  /** An escaped text followed by a star matches exactly the keys that start with the text. */
  lemma {:induction false} EscapedPrefixMatches(prefix: Str, key: Str)
    ensures Matches(Escape(prefix) + [STAR], key) <==> prefix <= key
  {
    if prefix == [] {
      assert Escape(prefix) + [STAR] == [STAR];
      StarMatchesAll(key);
    } else {
      EscapeStep(prefix, [STAR]);
      UnitMatches(prefix[0], Escape(prefix[1..]) + [STAR], key);
      if key != [] {
        EscapedPrefixMatches(prefix[1..], key[1..]);
        HeadAndTail(prefix);
        HeadAndTail(key);
      }
    }
  }

  // ---------- whose keys ----------

  const HEAD: Str := L("sockethub:")
  const STORE: Str := L(":data-layer:credentials-store:")

  /** `buildCredentialsStoreId` */
  function StoreId(parent: Str, session: Str): Str {
    HEAD + parent + STORE + session
  }

  function Pattern(parent: Str): Str {
    Escape(StoreId(parent, [])) + [STAR]
  }

  predicate Own(parent: Str, key: Str) {
    StoreId(parent, []) <= key
  }

  /** A server's own keys are those of its store, whatever the session. */
  lemma OwnExactly(parent: Str, key: Str)
    ensures Own(parent, key)
       <==> exists session :: key == L("sockethub:") + parent + L(":data-layer:credentials-store:") + session
  {
    var store := StoreId(parent, []);
    assert store == L("sockethub:") + parent + L(":data-layer:credentials-store:");
    if store <= key {
      assert key == store + key[|store|..];
    }
  }

  lemma ShorterMeetsColon(a: Str, b: Str, x: Str, y: Str)
    requires |a| < |b| && x != [] && x[0] == COLON && a + x <= b + y
    ensures COLON in b
  {
    assert (a + x)[|a|] == (b + y)[|a|] == b[|a|];
  }

  lemma LongerMeetsColon(a: Str, b: Str, x: Str, y: Str)
    requires |b| < |a| && y != [] && y[0] == COLON && a + x <= b + y
    ensures COLON in a
  {
    assert (a + x)[|b|] == (b + y)[|b|] == COLON && (a + x)[|b|] == a[|b|];
  }

  lemma PatternMatchesOwn(parent: Str, key: Str)
    ensures Matches(Pattern(parent), key) <==> Own(parent, key)
  {
    EscapedPrefixMatches(StoreId(parent, []), key);
  }

  lemma FirstColon(a: Str, b: Str, x: Str, y: Str)
    requires COLON !in a && COLON !in b && x != [] && y != [] && x[0] == COLON && y[0] == COLON
    requires a + x <= b + y
    ensures a == b
  {
    if |a| > |b| {
      LongerMeetsColon(a, b, x, y);
    } else if |a| < |b| {
      ShorterMeetsColon(a, b, x, y);
    } else {
      assert a == (a + x)[..|a|] == (b + y)[..|a|] == b;
    }
  }

  /**
   Some key of another server is in reach exactly when one of the two key
   prefixes continues the other.
   */
  lemma ReachExactly(parent: Str, other: Str)
    ensures (exists session :: Own(parent, StoreId(other, session)))
       <==> StoreId(parent, []) <= StoreId(other, []) || StoreId(other, []) <= StoreId(parent, [])
  {
    var own, foreign := StoreId(parent, []), StoreId(other, []);
    if session :| Own(parent, StoreId(other, session)) {
      assert StoreId(other, session) == foreign + session;
      Comparable(own, foreign, session);
    }
    if own <= foreign {
      assert Own(parent, StoreId(other, []));
    } else if foreign <= own {
      var session := own[|foreign|..];
      assert StoreId(other, session) == foreign + session == own;
      assert Own(parent, StoreId(other, session));
    }
  }

  lemma Comparable(a: Str, b: Str, rest: Str)
    requires a <= b + rest
    ensures a <= b || b <= a
  {
    if |a| <= |b| {
      assert a == (b + rest)[..|a|] == b[..|a|];
    } else {
      assert b == (b + rest)[..|b|] == a[..|b|];
    }
  }

  /** With ids free of colons, as generated, no key of another server is in reach. */
  lemma OthersAreSafe(parent: Str, other: Str, session: Str)
    requires COLON !in parent && COLON !in other
    ensures Own(parent, StoreId(other, session)) <==> parent == other
  {
    if parent == other {
      assert StoreId(other, session) == StoreId(parent, []) + session;
    } else if Own(parent, StoreId(other, session)) {
      ReachExactly(parent, other);
      if StoreId(parent, []) <= StoreId(other, []) {
        DropHead(HEAD, parent, STORE, other, STORE, []);
        FirstColon(parent, other, STORE, STORE + []);
      } else {
        DropHead(HEAD, other, STORE, parent, STORE, []);
        FirstColon(other, parent, STORE, STORE + []);
      }
    }
  }

  lemma DropHead(head: Str, a: Str, x: Str, b: Str, y: Str, z: Str)
    requires head + a + x + [] <= head + b + y + z
    ensures a + x <= b + (y + z)
  {
    var left, right := head + a + x + [], head + b + y + z;
    assert left[|head|..] == a + x && right[|head|..] == b + (y + z);
    assert left == right[..|left|];
  }

  /** A colon is what it takes: an id that continues with the store name is swept along. */
  lemma ColonExposes(parent: Str, session: Str)
    ensures Own(parent, StoreId(parent + STORE, session))
  {
    Nested(HEAD, parent, STORE, session);
  }

  lemma Nested(head: Str, parent: Str, store: Str, session: Str)
    ensures head + parent + store + [] <= head + (parent + store) + store + session
  {
    assert head + (parent + store) + store + session == (head + parent + store + []) + (store + session);
  }

  // ---------- the scan ----------

  /**
   One answer of SCAN. Before it, other clients and expiry may have changed the
   key space: `gone` vanished, then `came` appeared.
   */
  datatype Page = Page(gone: set<Str>, came: set<Str>, cursor: Str, keys: seq<Str>)

  const ZERO: Str := L("0")

  /** The key space as everybody else leaves it. */
  function World(keys: set<Str>, pages: seq<Page>): set<Str> {
    if pages == [] then keys
    else
      var last := pages[|pages| - 1];
      World(keys, pages[..|pages| - 1]) - last.gone + last.came
  }

  predicate Returned(pages: seq<Page>, key: Str) {
    exists i | 0 <= i < |pages| :: key in pages[i].keys
  }

  predicate Vanished(pages: seq<Page>, key: Str) {
    exists i | 0 <= i < |pages| :: key in pages[i].gone
  }

  /**
   What Redis promises about a full iteration: it ends with cursor 0, returns
   matching keys only, possibly more than once, and misses no matching key that
   was there all the time. Nobody else writes this server's keys any more.
   */
  ghost predicate FullScan(keys: set<Str>, parent: Str, pages: seq<Page>) {
    && pages != []
    && (forall i | 0 <= i < |pages| :: pages[i].cursor == ZERO <==> i == |pages| - 1)
    && (forall i, key | 0 <= i < |pages| && key in pages[i].keys :: Matches(Pattern(parent), key))
    && (forall key | key in keys && Matches(Pattern(parent), key) && !Vanished(pages, key) :: Returned(pages, key))
    && (forall i, key | 0 <= i < |pages| && key in pages[i].came :: !Own(parent, key))
  }

  lemma {:induction false} WorldOwn(keys: set<Str>, parent: Str, pages: seq<Page>, key: Str)
    requires forall i, k | 0 <= i < |pages| && k in pages[i].came :: !Own(parent, k)
    requires Own(parent, key)
    ensures key in World(keys, pages) <==> key in keys && !Vanished(pages, key)
  {
    if pages != [] {
      var last := |pages| - 1;
      WorldOwn(keys, parent, pages[..last], key);
      assert forall i | 0 <= i < last :: pages[..last][i] == pages[i];
      assert Vanished(pages, key) <==> Vanished(pages[..last], key) || key in pages[last].gone;
    }
  }

  class Redis {
    var keys: set<Str>

    constructor (keys: set<Str>)
      ensures this.keys == keys
    {
      this.keys := keys;
    }

    method Others(page: Page)
      modifies this
      ensures keys == old(keys) - page.gone + page.came
    {
      keys := keys - page.gone + page.came;
    }

    method Del(key: Str) returns (n: nat)
      modifies this
      ensures keys == old(keys) - {key}
      ensures n == if key in old(keys) then 1 else 0
    {
      n := if key in keys then 1 else 0;
      keys := keys - {key};
    }
  }

  method DeleteAll(client: Redis, page: seq<Str>) returns (removed: nat, ghost deleted: set<Str>)
    modifies client
    ensures client.keys == old(client.keys) - deleted
    ensures deleted == set key | key in page && key in old(client.keys)
    ensures removed == |deleted|
  {
    removed := 0;
    deleted := {};
    for i := 0 to |page|
      invariant client.keys == old(client.keys) - deleted
      invariant deleted == set key | key in page[..i] && key in old(client.keys)
      invariant removed == |deleted|
    {
      ghost var before := client.keys;
      var n := client.Del(page[i]);
      removed := removed + n;
      if page[i] in before {
        deleted := deleted + {page[i]};
      }
      assert page[..i + 1] == page[..i] + [page[i]];
    }
    assert page[..|page|] == page;
  }

  /** `purgeCredentialsStoreKeys` */
  method PurgeCredentialsStoreKeys(client: Redis, parent: Str, pages: seq<Page>)
      returns (removed: nat, ghost deleted: set<Str>)
    requires FullScan(client.keys, parent, pages)
    modifies client
    // nothing of this server is left and nothing else was touched
    ensures client.keys == set key | key in World(old(client.keys), pages) && !Own(parent, key)
    // every key is counted once, however often SCAN returned it
    ensures removed == |deleted|
    ensures forall key | key in deleted :: key in old(client.keys) && Own(parent, key)
    ensures forall key | key in old(client.keys) && Own(parent, key) && !Vanished(pages, key) :: key in deleted
  {
    removed := 0;
    deleted := {};
    ghost var start := client.keys;
    var i := 0;
    var cursor := ZERO;
    var more := true;
    assert pages[..0] == [];
    while more
      invariant 0 <= i <= |pages| && (more <==> i < |pages|)
      invariant removed == |deleted|
      invariant PurgedUpTo(start, parent, pages, i, client.keys, deleted)
      decreases |pages| - i
    {
      var page := pages[i];
      client.Others(page);
      ghost var found := client.keys;
      cursor := page.cursor;
      var n;
      ghost var now;
      n, now := DeleteAll(client, page.keys);
      removed := removed + n;
      PageDone(start, parent, pages, i, found, deleted, now);
      deleted := deleted + now;
      i := i + 1;
      more := cursor != ZERO;
    }
    assert pages[..i] == pages;
    NothingLeft(start, parent, pages, deleted);
  }

  /** What the purge has achieved after the first `i` answers. */
  ghost predicate PurgedUpTo(start: set<Str>, parent: Str, pages: seq<Page>, i: nat, keys: set<Str>, deleted: set<Str>)
    requires i <= |pages|
  {
    && keys == World(start, pages[..i]) - deleted
    && (forall key | key in deleted :: key in start && Own(parent, key))
    && (forall key | key in start && Returned(pages[..i], key) && !Vanished(pages, key) :: key in deleted)
  }

  lemma PageDone(start: set<Str>, parent: Str, pages: seq<Page>, i: nat, found: set<Str>, deleted: set<Str>,
      now: set<Str>)
    requires i < |pages| && FullScan(start, parent, pages)
    requires exists keys ::
      PurgedUpTo(start, parent, pages, i, keys, deleted) && found == keys - pages[i].gone + pages[i].came
    requires now == set key | key in pages[i].keys && key in found
    ensures PurgedUpTo(start, parent, pages, i + 1, found - now, deleted + now)
    ensures |deleted + now| == |deleted| + |now|
  {
    WorldNext(start, parent, pages, i, deleted);
    AccountForPage(start, parent, pages, i, deleted, now);
  }

  lemma WorldNext(start: set<Str>, parent: Str, pages: seq<Page>, i: nat, deleted: set<Str>)
    requires i < |pages| && forall key | key in pages[i].came :: !Own(parent, key)
    requires forall key | key in deleted :: Own(parent, key)
    ensures World(start, pages[..i]) - deleted - pages[i].gone + pages[i].came == World(start, pages[..i + 1]) - deleted
  {
    assert pages[..i + 1][..i] == pages[..i];
  }

  lemma NothingLeft(start: set<Str>, parent: Str, pages: seq<Page>, deleted: set<Str>)
    requires FullScan(start, parent, pages)
    requires forall key | key in deleted :: Own(parent, key)
    requires forall key | key in start && Returned(pages, key) && !Vanished(pages, key) :: key in deleted
    ensures World(start, pages) - deleted == set key | key in World(start, pages) && !Own(parent, key)
    ensures forall key | key in start && Own(parent, key) && !Vanished(pages, key) :: key in deleted
  {
    forall key | key in start && Own(parent, key) && !Vanished(pages, key) ensures key in deleted {
      PatternMatchesOwn(parent, key);
    }
    forall key | Own(parent, key) ensures key !in World(start, pages) - deleted {
      WorldOwn(start, parent, pages, key);
    }
  }

  lemma AccountForPage(start: set<Str>, parent: Str, pages: seq<Page>, i: nat, deleted: set<Str>, now: set<Str>)
    requires i < |pages| && FullScan(start, parent, pages)
    requires now == set key | key in pages[i].keys && key in World(start, pages[..i + 1]) - deleted
    requires forall key | key in start && Returned(pages[..i], key) && !Vanished(pages, key) :: key in deleted
    ensures |deleted + now| == |deleted| + |now|
    ensures forall key | key in now :: key in start && Own(parent, key)
    ensures forall key | key in start && Returned(pages[..i + 1], key) && !Vanished(pages, key) :: key in deleted + now
  {
    assert deleted !! now;
    forall key | key in pages[i].keys
      ensures Own(parent, key)
      ensures key in World(start, pages[..i + 1]) <==> key in start && !Vanished(pages[..i + 1], key)
    {
      assert Matches(Pattern(parent), key);
      PatternMatchesOwn(parent, key);
      WorldOwn(start, parent, pages[..i + 1], key);
    }
    forall key | key in start && Returned(pages[..i + 1], key) && !Vanished(pages, key) ensures key in deleted + now {
      if !Returned(pages[..i], key) {
        assert key in pages[i].keys;
      }
    }
  }
}
