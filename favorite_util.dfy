/**
 * The favourites store of `FavoriteUtil` (util/FavoriteUtil.kt).
 *
 * The favourites live in the preferences store under one key, as a JSON object
 * from url to favourite, read back into an insertion-ordered
 * `LinkedHashMap<String, Favorite>`. Such a map is modelled as a sequence of
 * favourites in insertion order whose urls are the keys; `Put` is the map's
 * `put` (replace in place, or append a new key).
 */
module FavoriteUtil {
  import opened Base
  import opened Beans

  /** An insertion-ordered map from url to favourite. */
  type FavMap = seq<Favorite>

  // ---------------------------------------------------------------------------
  // The ordered map

  function UrlSet(m: FavMap): set<string> {
    set i | 0 <= i < |m| :: m[i].url
  }

  predicate UniqueUrls(m: FavMap) {
    forall i, j :: 0 <= i < j < |m| ==> m[i].url != m[j].url
  }

  /** The first position at or after `i` holding `url`. */
  function FindFrom(m: FavMap, url: string, i: nat): (r: Option<nat>)
    requires i <= |m|
    ensures r.Some? ==> i <= r.value < |m| && m[r.value].url == url
    ensures r.Some? ==> forall j :: i <= j < r.value ==> m[j].url != url
    ensures r.None? ==> forall j :: i <= j < |m| ==> m[j].url != url
    decreases |m| - i
  {
    if i == |m| then None
    else if m[i].url == url then Some(i)
    else FindFrom(m, url, i + 1)
  }

  function Find(m: FavMap, url: string): (r: Option<nat>)
    ensures r.Some? ==> r.value < |m| && m[r.value].url == url && forall j :: 0 <= j < r.value ==> m[j].url != url
    ensures r.None? <==> url !in UrlSet(m)
  {
    var r := FindFrom(m, url, 0);
    if r.None? then
      assert forall x :: x in UrlSet(m) ==> x != url;
      r
    else
      assert m[r.value].url in UrlSet(m);
      r
  }

  /** `map[url]`. */
  function Get(m: FavMap, url: string): (r: Option<Favorite>)
    ensures r.Some? <==> url in UrlSet(m)
    ensures r.Some? ==> r.value.url == url
  {
    match Find(m, url)
    case None => None
    case Some(i) => Some(m[i])
  }

  /** `map[f.url] = f` on a `LinkedHashMap`. */
  function Put(m: FavMap, f: Favorite): FavMap {
    match Find(m, f.url)
    case Some(i) => m[i := f]
    case None => m + [f]
  }

  lemma GetAt(m: FavMap, i: nat)
    requires UniqueUrls(m) && i < |m|
    ensures Get(m, m[i].url) == Some(m[i])
  {
    var r := Find(m, m[i].url);
    assert m[i].url in UrlSet(m);
  }

  /**
   * `put` stores `f` under its url, leaves every other key as it was, keeps a
   * known key in its position and appends a new one at the end.
   */
  lemma PutProps(m: FavMap, f: Favorite)
    ensures Get(Put(m, f), f.url) == Some(f)
    ensures forall u :: u != f.url ==> Get(Put(m, f), u) == Get(m, u)
    ensures UrlSet(Put(m, f)) == UrlSet(m) + {f.url}
    ensures UniqueUrls(m) ==> UniqueUrls(Put(m, f))
    ensures f.url !in UrlSet(m) ==> Put(m, f) == m + [f]
    ensures f.url in UrlSet(m) ==> |Put(m, f)| == |m| && Find(Put(m, f), f.url) == Find(m, f.url)
  {
    match Find(m, f.url)
    case Some(k) =>
      PutReplaceGet(m, f, k);
      PutReplaceUrls(m, f, k);
    case None =>
      PutAppendGet(m, f);
      PutAppendUrls(m, f);
  }

  /** Replacing the item at the url's position changes the lookup of that url only. */
  lemma PutReplaceGet(m: FavMap, f: Favorite, k: nat)
    requires Find(m, f.url) == Some(k)
    ensures Find(m[k := f], f.url) == Some(k) && Get(m[k := f], f.url) == Some(f)
    ensures forall u :: u != f.url ==> Get(m[k := f], u) == Get(m, u)
  {
    var r := m[k := f];
    assert r[k].url == f.url;
    assert Find(r, f.url) == Some(k) by {
      assert f.url in UrlSet(r);
    }
    forall u | u != f.url ensures Get(r, u) == Get(m, u) {
      var a, b := Find(r, u), Find(m, u);
      forall j | 0 <= j < |m| ensures (r[j].url == u) == (m[j].url == u) {
        if j == k {
          assert m[k].url == f.url;
        }
      }
      if a.Some? {
        assert b.Some?;
      }
    }
  }

  lemma PutReplaceUrls(m: FavMap, f: Favorite, k: nat)
    requires k < |m| && m[k].url == f.url
    ensures UrlSet(m[k := f]) == UrlSet(m) + {f.url}
  {
    var r := m[k := f];
    forall x | x in UrlSet(r) ensures x in UrlSet(m) + {f.url} {
      var j :| 0 <= j < |r| && r[j].url == x;
      if j != k { assert m[j].url == x; }
    }
    forall x | x in UrlSet(m) + {f.url} ensures x in UrlSet(r) {
      if x == f.url {
        assert r[k].url == x;
      } else {
        var j :| 0 <= j < |m| && m[j].url == x;
        assert r[j].url == x;
      }
    }
  }

  /** Appending an item with a new url adds that url's lookup and changes no other. */
  lemma PutAppendGet(m: FavMap, f: Favorite)
    requires f.url !in UrlSet(m)
    ensures Get(m + [f], f.url) == Some(f)
    ensures forall u :: u != f.url ==> Get(m + [f], u) == Get(m, u)
  {
    var r := m + [f];
    assert r[|m|].url == f.url;
    assert Find(r, f.url) == Some(|m|) by {
      assert f.url in UrlSet(r);
      assert forall j :: 0 <= j < |m| ==> r[j] == m[j];
    }
    forall u | u != f.url ensures Get(r, u) == Get(m, u) {
      var a, b := Find(r, u), Find(m, u);
      if b.Some? {
        assert r[b.value].url == u;
        assert a.Some?;
      }
    }
  }

  lemma PutAppendUrls(m: FavMap, f: Favorite)
    ensures UrlSet(m + [f]) == UrlSet(m) + {f.url}
  {
    var r := m + [f];
    assert r[|m|].url == f.url;
    forall x | x in UrlSet(r) ensures x in UrlSet(m) + {f.url} {
      var j :| 0 <= j < |r| && r[j].url == x;
      if j < |m| { assert m[j].url == x; }
    }
    forall x | x in UrlSet(m) ensures x in UrlSet(r) {
      var j :| 0 <= j < |m| && m[j].url == x;
      assert r[j].url == x;
    }
  }

  /** `associateBy { it.url }` and every other loop that puts a list's items in order. */
  function FromList(l: seq<Favorite>): FavMap {
    if l == [] then [] else Put(FromList(l[..|l| - 1]), l[|l| - 1])
  }

  /** The last item of `l` with url `u`: the one `associateBy` keeps. */
  function LastWith(l: seq<Favorite>, u: string): (r: Option<Favorite>)
    ensures r.Some? ==> r.value in l && r.value.url == u
    ensures r.Some? <==> u in UrlSet(l)
  {
    if l == [] then None
    else
      UrlSetConcat(l[..|l| - 1], [l[|l| - 1]]);
      assert l == l[..|l| - 1] + [l[|l| - 1]];
      assert UrlSet([l[|l| - 1]]) == {l[|l| - 1].url} by { assert [l[|l| - 1]][0] == l[|l| - 1]; }
      if l[|l| - 1].url == u then Some(l[|l| - 1])
      else LastWith(l[..|l| - 1], u)
  }

  /**
   * Putting the items of a list in order gives a map with unique keys, the
   * list's urls, and under each url the last item of the list with that url.
   */
  lemma {:induction false} FromListProps(l: seq<Favorite>)
    ensures UniqueUrls(FromList(l))
    ensures UrlSet(FromList(l)) == UrlSet(l)
    ensures forall u :: Get(FromList(l), u) == LastWith(l, u)
  {
    if l != [] {
      var init, f := l[..|l| - 1], l[|l| - 1];
      FromListProps(init);
      PutProps(FromList(init), f);
      assert UrlSet(l) == UrlSet(init) + {f.url} by {
        forall x | x in UrlSet(l) ensures x in UrlSet(init) + {f.url} {
          var j :| 0 <= j < |l| && l[j].url == x;
          if j < |init| { assert init[j].url == x; }
        }
        forall x | x in UrlSet(init) ensures x in UrlSet(l) {
          var j :| 0 <= j < |init| && init[j].url == x;
          assert l[j].url == x;
        }
        assert l[|l| - 1].url in UrlSet(l);
      }
    }
  }

  /** A list whose urls are already unique is its own map. */
  lemma {:induction false} FromListUnique(l: seq<Favorite>)
    requires UniqueUrls(l)
    ensures FromList(l) == l
  {
    if l != [] {
      var init, f := l[..|l| - 1], l[|l| - 1];
      FromListUnique(init);
      assert f.url !in UrlSet(init) by {
        assert forall j :: 0 <= j < |init| ==> init[j].url == l[j].url;
      }
      PutProps(init, f);
      assert init + [f] == l;
    }
  }

  lemma UrlSetConcat(a: FavMap, b: FavMap)
    ensures UrlSet(a + b) == UrlSet(a) + UrlSet(b)
  {
    var ab := a + b;
    forall x | x in UrlSet(ab) ensures x in UrlSet(a) + UrlSet(b) {
      var j :| 0 <= j < |ab| && ab[j].url == x;
      if j < |a| { assert a[j].url == x; } else { assert b[j - |a|].url == x; }
    }
    forall x | x in UrlSet(a) + UrlSet(b) ensures x in UrlSet(ab) {
      if x in UrlSet(a) {
        var j :| 0 <= j < |a| && a[j].url == x;
        assert ab[j].url == x;
      } else {
        var j :| 0 <= j < |b| && b[j].url == x;
        assert ab[|a| + j].url == x;
      }
    }
  }

  /** Looking a url up in two maps laid end to end. */
  lemma GetConcat(a: FavMap, b: FavMap, u: string)
    ensures Get(a + b, u) == if u in UrlSet(a) then Get(a, u) else Get(b, u)
    ensures Find(a + b, u) == if u in UrlSet(a) then Find(a, u) else
      match Find(b, u) case Some(k) => Some(|a| + k) case None => None
  {
    var ab := a + b;
    UrlSetConcat(a, b);
    var r := Find(ab, u);
    if u in UrlSet(a) {
      var ra := Find(a, u);
      assert ab[ra.value].url == u;
      assert r.value <= ra.value;
      assert r.value < |a| ==> a[r.value].url == u;
    } else {
      forall j | 0 <= j < |a| ensures ab[j].url != u {
        assert a[j].url in UrlSet(a);
      }
      if u in UrlSet(b) {
        var rb := Find(b, u);
        assert ab[|a| + rb.value].url == u;
        assert b[r.value - |a|].url == u;
      }
    }
  }

  lemma UniqueConcat(a: FavMap, b: FavMap)
    requires UniqueUrls(a) && UniqueUrls(b) && UrlSet(a) * UrlSet(b) == {}
    ensures UniqueUrls(a + b)
  {
    var ab := a + b;
    forall i, j | 0 <= i < j < |ab| ensures ab[i].url != ab[j].url {
      if j < |a| {
        assert ab[i] == a[i] && ab[j] == a[j];
      } else if i >= |a| {
        assert ab[i] == b[i - |a|] && ab[j] == b[j - |a|];
      } else {
        assert ab[i] == a[i] && a[i].url in UrlSet(a);
        assert ab[j] == b[j - |a|] && b[j - |a|].url in UrlSet(b);
        assert a[i].url !in UrlSet(a) * UrlSet(b);
      }
    }
  }

  /** The position of a url in a map. */
  function Pos(m: FavMap, u: string): (k: nat)
    requires u in UrlSet(m)
    ensures k < |m| && m[k].url == u
  {
    Find(m, u).value
  }

  /** Every key of `k` is a key of `m`, and `k` lists them in the order of `m`. */
  predicate InOrderOf(k: FavMap, m: FavMap) {
    forall i, j :: 0 <= i < j < |k| ==> k[i].url in UrlSet(m) && k[j].url in UrlSet(m) && Pos(m, k[i].url) < Pos(m, k[j].url)
  }

  lemma PosAt(m: FavMap, i: nat)
    requires UniqueUrls(m) && i < |m|
    ensures m[i].url in UrlSet(m) && Pos(m, m[i].url) == i
  {
    assert m[i].url in UrlSet(m);
  }

  /**
   * Keys keep the order in which the list first mentions them: a later put of
   * a known key does not move it.
   */
  lemma {:induction false} FromListOrder(l: seq<Favorite>)
    ensures InOrderOf(FromList(l), l)
    decreases |l|, 1
  {
    FromListProps(l);
    if l != [] {
      forall i, j | 0 <= i < j < |FromList(l)|
        ensures FromList(l)[i].url in UrlSet(l) && FromList(l)[j].url in UrlSet(l) &&
          Pos(l, FromList(l)[i].url) < Pos(l, FromList(l)[j].url)
      {
        FromListPair(l, i, j);
      }
    }
  }

  /** The step of `FromListOrder` for one pair of positions of the map. */
  lemma {:induction false} FromListPair(l: seq<Favorite>, i: nat, j: nat)
    requires l != [] && i < j < |FromList(l)|
    ensures var m := FromList(l);
      m[i].url in UrlSet(l) && m[j].url in UrlSet(l) && Pos(l, m[i].url) < Pos(l, m[j].url)
    decreases |l|, 0
  {
    var init, f := l[..|l| - 1], l[|l| - 1];
    FromListOrder(init);
    var m0 := FromList(init);
    var m := FromList(l);
    assert m == Put(m0, f);
    InitLast(l);
    match Find(m0, f.url)
    case Some(k) =>
      assert m == m0[k := f];
      assert m[i].url == m0[i].url && m[j].url == m0[j].url;
      FromListEarlierPair(l, i, j);
    case None =>
      assert m == m0 + [f];
      assert m[i] == m0[i];
      if j < |m0| {
        assert m[j] == m0[j];
        FromListEarlierPair(l, i, j);
      } else {
        assert m[j] == f;
        FromListProps(init);
        assert f.url !in UrlSet(init);
        assert m0[i].url in UrlSet(init) by { assert m0[i].url in UrlSet(m0); }
        GetConcat(init, [f], m0[i].url);
        GetConcat(init, [f], f.url);
        assert Find([f], f.url) == Some(0);
      }
  }

  /** Two keys the map had before the last item keep their order, as they do in the list. */
  lemma FromListEarlierPair(l: seq<Favorite>, i: nat, j: nat)
    requires l != [] && InOrderOf(FromList(l[..|l| - 1]), l[..|l| - 1])
    requires i < j < |FromList(l[..|l| - 1])| && l == l[..|l| - 1] + [l[|l| - 1]]
    ensures var m0 := FromList(l[..|l| - 1]);
      m0[i].url in UrlSet(l) && m0[j].url in UrlSet(l) && Pos(l, m0[i].url) < Pos(l, m0[j].url)
  {
    var init, f := l[..|l| - 1], l[|l| - 1];
    var m0 := FromList(init);
    var u, v := m0[i].url, m0[j].url;
    assert u in UrlSet(init) && v in UrlSet(init) && Pos(init, u) < Pos(init, v);
    GetConcat(init, [f], u);
    GetConcat(init, [f], v);
  }

  // ---------------------------------------------------------------------------
  // Merging the network list into the stored map (addFavorite)

  /** The items of `l` whose url is not in `urls`, in order. */
  function Reject(l: seq<Favorite>, urls: set<string>): (r: seq<Favorite>)
    ensures forall i :: 0 <= i < |r| ==> r[i] in l && r[i].url !in urls
  {
    if l == [] then []
    else Reject(l[..|l| - 1], urls) + (if l[|l| - 1].url in urls then [] else [l[|l| - 1]])
  }

  /** The stored items whose url the network still lists, each with the network's title. */
  function Kept(stored: FavMap, net: FavMap): FavMap {
    if stored == [] then []
    else
      var o := stored[|stored| - 1];
      Kept(stored[..|stored| - 1], net) + match Get(net, o.url) { case Some(n) => [o.(title := n.title)] case None => [] }
  }

  /**
   * `addFavorite`: the network items unknown locally, in network order, then
   * the stored items the network still lists, in stored order, retitled.
   */
  function Merge(favorites: seq<Favorite>, stored: FavMap): FavMap {
    FromList(Reject(favorites, UrlSet(stored))) + Kept(stored, FromList(favorites))
  }

  lemma {:induction false} RejectUrls(l: seq<Favorite>, urls: set<string>)
    ensures UrlSet(Reject(l, urls)) == UrlSet(l) - urls
  {
    if l != [] {
      var init, f := l[..|l| - 1], l[|l| - 1];
      RejectUrls(init, urls);
      UrlSetConcat(init, [f]);
      assert l == init + [f];
      UrlSetConcat(Reject(init, urls), if f.url in urls then [] else [f]);
      assert UrlSet([f]) == {f.url} by { assert [f][0].url == f.url; }
    }
  }

  lemma {:induction false} RejectUnique(l: seq<Favorite>, urls: set<string>)
    requires UniqueUrls(l)
    ensures UniqueUrls(Reject(l, urls))
  {
    if l != [] {
      var init, f := l[..|l| - 1], l[|l| - 1];
      assert UniqueUrls(init) by { assert forall i :: 0 <= i < |init| ==> init[i] == l[i]; }
      RejectUnique(init, urls);
      RejectUrls(init, urls);
      assert f.url !in UrlSet(init) by {
        assert forall j :: 0 <= j < |init| ==> init[j].url == l[j].url;
      }
      if f.url !in urls {
        assert UrlSet([f]) == {f.url} by { assert [f][0].url == f.url; }
        UniqueConcat(Reject(init, urls), [f]);
      }
    }
  }

  /** The item that `Kept` adds for the last stored item. */
  function KeptTail(o: Favorite, net: FavMap): (t: FavMap)
    ensures UniqueUrls(t) && UrlSet(t) == (if o.url in UrlSet(net) then {o.url} else {}) && |t| <= 1
    ensures o.url in UrlSet(net) ==> t == [o.(title := Get(net, o.url).value.title)]
  {
    var t: FavMap := match Get(net, o.url) { case Some(n) => [o.(title := n.title)] case None => [] };
    assert o.url in UrlSet(net) ==> t[0].url == o.url;
    t
  }

  lemma KeptStep(stored: FavMap, net: FavMap)
    requires stored != []
    ensures Kept(stored, net) == Kept(stored[..|stored| - 1], net) + KeptTail(stored[|stored| - 1], net)
  {
  }

  /** What the last stored item contributes, given the rest. */
  lemma SplitLast(stored: FavMap)
    requires UniqueUrls(stored) && stored != []
    ensures var init, o := stored[..|stored| - 1], stored[|stored| - 1];
      stored == init + [o] && UniqueUrls(init) && o.url !in UrlSet(init) &&
      UrlSet(stored) == UrlSet(init) + {o.url} &&
      Get(stored, o.url) == Some(o) && Pos(stored, o.url) == |init| &&
      forall u :: u in UrlSet(init) ==> Get(stored, u) == Get(init, u) && Pos(stored, u) == Pos(init, u)
  {
    var init, o := stored[..|stored| - 1], stored[|stored| - 1];
    assert stored == init + [o];
    assert forall j :: 0 <= j < |init| ==> init[j] == stored[j];
    UrlSetConcat(init, [o]);
    assert UrlSet([o]) == {o.url} by { assert [o][0].url == o.url; }
    GetConcat(init, [o], o.url);
    assert Find([o], o.url) == Some(0);
    forall u | u in UrlSet(init) ensures Get(stored, u) == Get(init, u) && Pos(stored, u) == Pos(init, u) {
      GetConcat(init, [o], u);
    }
  }

  /** The surviving stored items are exactly the stored urls the network lists, once each. */
  lemma {:induction false} KeptUrls(stored: FavMap, net: FavMap)
    requires UniqueUrls(stored)
    ensures UrlSet(Kept(stored, net)) == UrlSet(stored) * UrlSet(net)
    ensures UniqueUrls(Kept(stored, net))
  {
    if stored != [] {
      var init, o := stored[..|stored| - 1], stored[|stored| - 1];
      SplitLast(stored);
      KeptUrls(init, net);
      KeptStep(stored, net);
      var k0, tail := Kept(init, net), KeptTail(o, net);
      UrlSetConcat(k0, tail);
      UniqueConcat(k0, tail);
    }
  }

  /** Each surviving item holds its stored fields and the network title. */
  lemma {:induction false} KeptEntries(stored: FavMap, net: FavMap)
    requires UniqueUrls(stored)
    ensures forall u :: u in UrlSet(stored) && u in UrlSet(net) ==>
      Get(Kept(stored, net), u) == Some(Get(stored, u).value.(title := Get(net, u).value.title))
  {
    if stored != [] {
      var init, o := stored[..|stored| - 1], stored[|stored| - 1];
      SplitLast(stored);
      KeptUrls(init, net);
      KeptEntries(init, net);
      KeptStep(stored, net);
      var k0, tail := Kept(init, net), KeptTail(o, net);
      var k := Kept(stored, net);
      UrlSetConcat(k0, tail);
      forall u | u in UrlSet(stored) && u in UrlSet(net) ensures Get(k, u) == Some(Get(stored, u).value.(title := Get(net, u).value.title)) {
        GetConcat(k0, tail, u);
        if u !in UrlSet(k0) {
          assert Find(tail, u) == Some(0);
        }
      }
    }
  }

  /** The surviving items keep their stored order. */
  lemma {:induction false} KeptOrder(stored: FavMap, net: FavMap)
    requires UniqueUrls(stored)
    ensures InOrderOf(Kept(stored, net), stored)
  {
    if stored != [] {
      var init, o := stored[..|stored| - 1], stored[|stored| - 1];
      KeptUrls(init, net);
      KeptOrder(init, net);
      KeptStep(stored, net);
      KeptOrderJoin(stored, Kept(init, net), KeptTail(o, net));
    }
  }

  /** Appending the last stored item, if kept, after the kept earlier items keeps the stored order. */
  lemma KeptOrderJoin(stored: FavMap, k0: FavMap, tail: FavMap)
    requires UniqueUrls(stored) && stored != []
    requires InOrderOf(k0, stored[..|stored| - 1]) && UrlSet(k0) <= UrlSet(stored[..|stored| - 1])
    requires UrlSet(tail) <= {stored[|stored| - 1].url} && |tail| <= 1
    ensures InOrderOf(k0 + tail, stored)
  {
    var init, o := stored[..|stored| - 1], stored[|stored| - 1];
    SplitLast(stored);
    var k := k0 + tail;
    assert tail != [] ==> tail[0].url in UrlSet(tail);
    forall i, j | 0 <= i < j < |k|
      ensures k[i].url in UrlSet(stored) && k[j].url in UrlSet(stored) && Pos(stored, k[i].url) < Pos(stored, k[j].url)
    {
      assert k[i] == k0[i] && k0[i].url in UrlSet(k0);
      if j < |k0| {
        assert k[j] == k0[j] && k0[j].url in UrlSet(k0);
      } else {
        assert k[j] == tail[0];
      }
    }
  }

  /** Rejecting urls does not change the last item of a url that is kept. */
  lemma {:induction false} RejectLast(l: seq<Favorite>, urls: set<string>, u: string)
    requires u !in urls
    ensures LastWith(Reject(l, urls), u) == LastWith(l, u)
  {
    if l != [] {
      var init, f := l[..|l| - 1], l[|l| - 1];
      RejectLast(init, urls, u);
      var r0 := Reject(init, urls);
      if f.url !in urls {
        assert Reject(l, urls) == r0 + [f];
        assert (r0 + [f])[..|r0|] == r0;
      } else {
        assert Reject(l, urls) == r0;
      }
    }
  }

  /** Rejecting urls keeps the order in which the kept urls are first mentioned. */
  lemma {:induction false} RejectPos(l: seq<Favorite>, urls: set<string>, u: string, v: string)
    requires u in UrlSet(Reject(l, urls)) && v in UrlSet(Reject(l, urls))
    requires Pos(Reject(l, urls), u) < Pos(Reject(l, urls), v)
    ensures u in UrlSet(l) && v in UrlSet(l) && Pos(l, u) < Pos(l, v)
  {
    RejectUrls(l, urls);
    var init, f := l[..|l| - 1], l[|l| - 1];
    var r0 := Reject(init, urls);
    var r := Reject(l, urls);
    assert l == init + [f];
    RejectUrls(init, urls);
    UrlSetConcat(init, [f]);
    assert UrlSet([f]) == {f.url} by { assert [f][0].url == f.url; }
    GetConcat(init, [f], u);
    GetConcat(init, [f], v);
    assert Find([f], f.url) == Some(0);
    if f.url in urls {
      assert r == r0;
      RejectPos(init, urls, u, v);
    } else {
      assert r == r0 + [f];
      GetConcat(r0, [f], u);
      GetConcat(r0, [f], v);
      if u in UrlSet(r0) && v in UrlSet(r0) {
        RejectPos(init, urls, u, v);
      } else {
        assert u in UrlSet(r0);
        assert v == f.url && v !in UrlSet(init);
      }
    }
  }

  /**
   * The merged list holds exactly the network's urls: stored favourites the
   * network no longer lists are dropped, and no url appears twice.
   */
  lemma MergeUrls(favorites: seq<Favorite>, stored: FavMap)
    requires UniqueUrls(stored)
    ensures UrlSet(Merge(favorites, stored)) == UrlSet(favorites)
    ensures UniqueUrls(Merge(favorites, stored))
  {
    var rej := Reject(favorites, UrlSet(stored));
    var net := FromList(favorites);
    RejectUrls(favorites, UrlSet(stored));
    FromListProps(rej);
    FromListProps(favorites);
    KeptUrls(stored, net);
    UrlSetConcat(FromList(rej), Kept(stored, net));
    UniqueConcat(FromList(rej), Kept(stored, net));
  }

  /**
   * The network items unknown locally come first, ordered by their first
   * mention in the network list; the stored items follow in stored order.
   */
  lemma MergeOrder(favorites: seq<Favorite>, stored: FavMap)
    requires UniqueUrls(stored)
    ensures var m := Merge(favorites, stored);
      forall i, j :: 0 <= i < j < |m| && m[i].url in UrlSet(stored) ==> m[j].url in UrlSet(stored)
    ensures var m := Merge(favorites, stored);
      forall i, j :: 0 <= i < j < |m| && m[j].url !in UrlSet(stored) ==>
        m[i].url in UrlSet(favorites) && m[j].url in UrlSet(favorites) && Pos(favorites, m[i].url) < Pos(favorites, m[j].url)
    ensures var m := Merge(favorites, stored);
      forall i, j :: 0 <= i < j < |m| && m[i].url in UrlSet(stored) ==> Pos(stored, m[i].url) < Pos(stored, m[j].url)
  {
    var m := Merge(favorites, stored);
    forall i, j | 0 <= i < j < |m| && m[i].url in UrlSet(stored)
      ensures m[j].url in UrlSet(stored) && Pos(stored, m[i].url) < Pos(stored, m[j].url)
    {
      MergeKeptPair(favorites, stored, i, j);
    }
    forall i, j | 0 <= i < j < |m| && m[j].url !in UrlSet(stored)
      ensures m[i].url in UrlSet(favorites) && m[j].url in UrlSet(favorites) && Pos(favorites, m[i].url) < Pos(favorites, m[j].url)
    {
      MergeNewPair(favorites, stored, i, j);
    }
  }

  /** The new part of the merge comes before the kept part, and only it holds unknown urls. */
  lemma MergeSides(favorites: seq<Favorite>, stored: FavMap, i: nat)
    requires UniqueUrls(stored) && i < |Merge(favorites, stored)|
    ensures var a := FromList(Reject(favorites, UrlSet(stored)));
      var m := Merge(favorites, stored);
      (m[i].url in UrlSet(stored) <==> i >= |a|) &&
      (i < |a| ==> m[i] == a[i]) &&
      (i >= |a| ==> m[i] == Kept(stored, FromList(favorites))[i - |a|])
  {
    var rej := Reject(favorites, UrlSet(stored));
    var net := FromList(favorites);
    var a, k := FromList(rej), Kept(stored, net);
    var m := a + k;
    RejectUrls(favorites, UrlSet(stored));
    FromListProps(rej);
    KeptUrls(stored, net);
    if i < |a| {
      assert m[i] == a[i] && a[i].url in UrlSet(a);
    } else {
      assert m[i] == k[i - |a|] && k[i - |a|].url in UrlSet(k);
    }
  }

  /** Two merged items after a known one are stored items, in stored order. */
  lemma MergeKeptPair(favorites: seq<Favorite>, stored: FavMap, i: nat, j: nat)
    requires UniqueUrls(stored)
    requires i < j < |Merge(favorites, stored)| && Merge(favorites, stored)[i].url in UrlSet(stored)
    ensures var m := Merge(favorites, stored);
      m[j].url in UrlSet(stored) && Pos(stored, m[i].url) < Pos(stored, m[j].url)
  {
    var a, k := FromList(Reject(favorites, UrlSet(stored))), Kept(stored, FromList(favorites));
    MergeSides(favorites, stored, i);
    MergeSides(favorites, stored, j);
    KeptOrder(stored, FromList(favorites));
    assert InOrderOf(k, stored);
    assert i - |a| < j - |a| < |k|;
  }

  /** Two merged items before an unknown one are new items, in the order of the network list. */
  lemma MergeNewPair(favorites: seq<Favorite>, stored: FavMap, i: nat, j: nat)
    requires UniqueUrls(stored)
    requires i < j < |Merge(favorites, stored)| && Merge(favorites, stored)[j].url !in UrlSet(stored)
    ensures var m := Merge(favorites, stored);
      m[i].url in UrlSet(favorites) && m[j].url in UrlSet(favorites) && Pos(favorites, m[i].url) < Pos(favorites, m[j].url)
  {
    var rej := Reject(favorites, UrlSet(stored));
    var a := FromList(rej);
    MergeSides(favorites, stored, i);
    MergeSides(favorites, stored, j);
    FromListOrder(rej);
    assert InOrderOf(a, rej);
    assert i < j < |a|;
    RejectPos(favorites, UrlSet(stored), a[i].url, a[j].url);
  }

  /**
   * A stored favourite the network still lists keeps its stored fields and
   * takes the network title; a new one is the network item, the last one
   * listed when the network names its url more than once.
   */
  lemma MergeEntries(favorites: seq<Favorite>, stored: FavMap, u: string)
    requires UniqueUrls(stored) && u in UrlSet(favorites)
    ensures u in UrlSet(stored) ==> Get(Merge(favorites, stored), u) == Some(Get(stored, u).value.(title := LastWith(favorites, u).value.title))
    ensures u !in UrlSet(stored) ==> Get(Merge(favorites, stored), u) == LastWith(favorites, u)
  {
    var rej := Reject(favorites, UrlSet(stored));
    var net := FromList(favorites);
    var a, k := FromList(rej), Kept(stored, net);
    RejectUrls(favorites, UrlSet(stored));
    FromListProps(rej);
    FromListProps(favorites);
    GetConcat(a, k, u);
    if u in UrlSet(stored) {
      KeptEntries(stored, net);
    } else {
      RejectLast(favorites, UrlSet(stored), u);
    }
  }

  /** One round of the first `addFavorite` loop. */
  lemma RejectStep(l: seq<Favorite>, i: nat, urls: set<string>)
    requires i < |l|
    ensures FromList(Reject(l[..i + 1], urls)) ==
      if l[i].url in urls then FromList(Reject(l[..i], urls)) else Put(FromList(Reject(l[..i], urls)), l[i])
  {
    var pre := l[..i + 1];
    assert pre[..|pre| - 1] == l[..i] && pre[|pre| - 1] == l[i];
    var r0 := Reject(l[..i], urls);
    assert Reject(pre, urls) == r0 + (if l[i].url in urls then [] else [l[i]]);
    if l[i].url !in urls {
      var r := r0 + [l[i]];
      assert r[..|r| - 1] == r0 && r[|r| - 1] == l[i];
      assert FromList(r) == Put(FromList(r0), l[i]);
    } else {
      assert r0 + [] == r0;
    }
  }

  /** One round of the second `addFavorite` loop: a put of a url not yet in the map appends. */
  lemma KeptPutStep(newPart: FavMap, stored: FavMap, k: nat, net: FavMap)
    requires k < |stored| && UniqueUrls(stored) && UrlSet(newPart) * UrlSet(stored) == {}
    ensures var cur := newPart + Kept(stored[..k], net); var o := stored[k];
      Kept(stored[..k + 1], net) == Kept(stored[..k], net) + KeptTail(o, net) &&
      (Get(net, o.url).Some? ==>
        Put(cur, o.(title := Get(net, o.url).value.title)) == newPart + Kept(stored[..k + 1], net)) &&
      (Get(net, o.url).None? ==> cur == newPart + Kept(stored[..k + 1], net))
  {
    var o := stored[k];
    var kept := Kept(stored[..k], net);
    KeptNotBefore(stored, k, net);
    assert o.url !in UrlSet(newPart) by {
      assert stored[k].url in UrlSet(stored);
      assert o.url !in UrlSet(newPart) * UrlSet(stored);
    }
    UrlSetConcat(newPart, kept);
    if Get(net, o.url).Some? {
      var upd := o.(title := Get(net, o.url).value.title);
      PutNew(newPart + kept, upd);
      assert KeptTail(o, net) == [upd];
      assert (newPart + kept) + [upd] == newPart + (kept + [upd]);
    }
  }

  /** An item whose url is not in the map is appended at the end. */
  lemma PutNew(m: FavMap, f: Favorite)
    requires f.url !in UrlSet(m)
    ensures Put(m, f) == m + [f]
  {
  }

  /** The kept items before position `k` do not hold the url at `k`, and `k` adds its own tail. */
  lemma KeptNotBefore(stored: FavMap, k: nat, net: FavMap)
    requires k < |stored| && UniqueUrls(stored)
    ensures stored[k].url !in UrlSet(Kept(stored[..k], net))
    ensures Kept(stored[..k + 1], net) == Kept(stored[..k], net) + KeptTail(stored[k], net)
  {
    var pre := stored[..k + 1];
    assert pre[..k] == stored[..k] && pre[k] == stored[k];
    assert UniqueUrls(pre) by {
      assert forall a :: 0 <= a < k + 1 ==> pre[a] == stored[a];
    }
    KeptStep(pre, net);
    SplitLast(pre);
    KeptUrls(stored[..k], net);
  }

  // ---------------------------------------------------------------------------
  // The stored JSON object

  /** A favourite as the JSON object stores it; `isHidden` may be missing. */
  datatype Record = Record(
    title: string,
    url: string,
    lastPage: int,
    lastView: int,
    lastChapter: Option<string>,
    authorId: Option<string>,
    isHidden: Option<bool>)

  /** A member of the stored JSON object, in document order. */
  datatype Entry = Entry(key: string, value: Record)

  type JsonObject = seq<Entry>

  /** The favourite `jsonToHashMap` builds from one record. */
  function FromRecord(r: Record): (f: Favorite)
    ensures f.url == r.url && f.title == r.title && f.lastPage == r.lastPage && f.lastView == r.lastView
    ensures f.lastChapter == r.lastChapter && f.authorId == r.authorId
    ensures f.isHidden <==> r.isHidden == Some(true)
  {
    Favorite(r.title, r.url, r.lastPage, r.lastView, r.lastChapter, r.authorId,
      match r.isHidden case Some(b) => b case None => false)
  }

  /** The record `JSON.toJSONString` writes for a favourite. */
  function ToRecord(f: Favorite): Record {
    Record(f.title, f.url, f.lastPage, f.lastView, f.lastChapter, f.authorId, Some(f.isHidden))
  }

  /** `JSON.toJSONString` of a map: one member per key, in key order. */
  function Encode(m: FavMap): (j: JsonObject)
    ensures |j| == |m| && forall i :: 0 <= i < |m| ==> j[i] == Entry(m[i].url, ToRecord(m[i]))
  {
    if m == [] then [] else Encode(m[..|m| - 1]) + [Entry(m[|m| - 1].url, ToRecord(m[|m| - 1]))]
  }

  /** The favourites of the object's values, in document order. */
  function Values(j: JsonObject): (l: seq<Favorite>)
    ensures |l| == |j| && forall i :: 0 <= i < |j| ==> l[i] == FromRecord(j[i].value)
  {
    if j == [] then [] else Values(j[..|j| - 1]) + [FromRecord(j[|j| - 1].value)]
  }

  /** `jsonToHashMap`: each value put under its own `url`, whatever its member key. */
  function JsonToMap(j: JsonObject): FavMap {
    FromList(Values(j))
  }

  /**
   * A loaded map has unique keys, holds under each url the last record with
   * that url, and reading back what was written gives the map that was written.
   */
  lemma JsonToMapProps(j: JsonObject)
    ensures UniqueUrls(JsonToMap(j))
    ensures UrlSet(JsonToMap(j)) == UrlSet(Values(j))
    ensures forall u :: Get(JsonToMap(j), u) == LastWith(Values(j), u)
  {
    FromListProps(Values(j));
  }

  lemma RoundTrip(m: FavMap)
    requires UniqueUrls(m)
    ensures JsonToMap(Encode(m)) == m
  {
    assert Values(Encode(m)) == m;
    FromListUnique(m);
  }

  /** Every entry whose url is listed gets the hidden flag; nothing else changes. */
  function WithHidden(m: FavMap, urls: set<string>, hidden: bool): (r: FavMap)
    ensures |r| == |m|
    ensures forall i :: 0 <= i < |m| ==> r[i] == if m[i].url in urls then m[i].(isHidden := hidden) else m[i]
  {
    if m == [] then []
    else
      var f := m[|m| - 1];
      WithHidden(m[..|m| - 1], urls, hidden) + [if f.url in urls then f.(isHidden := hidden) else f]
  }

  /** Whether `updateHiddenStatus` finds some listed entry whose flag differs. */
  predicate ChangesHidden(m: FavMap, urls: set<string>, hidden: bool) {
    exists i :: 0 <= i < |m| && m[i].url in urls && m[i].isHidden != hidden
  }

  /** The update touches flags only: urls, positions and look-ups are as before. */
  lemma WithHiddenKeys(m: FavMap, urls: set<string>, hidden: bool)
    ensures var r := WithHidden(m, urls, hidden);
      UrlSet(r) == UrlSet(m) && (forall u :: Find(r, u) == Find(m, u)) && (UniqueUrls(m) ==> UniqueUrls(r))
  {
    var r := WithHidden(m, urls, hidden);
    assert forall i :: 0 <= i < |m| ==> r[i].url == m[i].url;
    assert UrlSet(r) == UrlSet(m) by {
      forall x | x in UrlSet(r) ensures x in UrlSet(m) {
        var i :| 0 <= i < |r| && r[i].url == x;
        assert m[i].url == x;
      }
      forall x | x in UrlSet(m) ensures x in UrlSet(r) {
        var i :| 0 <= i < |m| && m[i].url == x;
        assert r[i].url == x;
      }
    }
    forall u | u in UrlSet(m) ensures Find(r, u) == Find(m, u) {
      var a, b := Find(r, u), Find(m, u);
      assert r[b.value].url == u;
      assert m[a.value].url == u;
    }
  }

  /**
   * After the update every listed url present in the map carries the flag,
   * urls the map lacks are ignored, and a map where no listed flag differs is
   * left as it was.
   */
  lemma WithHiddenProps(m: FavMap, urls: set<string>, hidden: bool)
    requires UniqueUrls(m)
    ensures var r := WithHidden(m, urls, hidden);
      UniqueUrls(r) && UrlSet(r) == UrlSet(m) &&
      (forall u :: u in urls && u in UrlSet(m) ==> Get(r, u) == Some(Get(m, u).value.(isHidden := hidden))) &&
      (forall u :: u !in urls ==> Get(r, u) == Get(m, u))
    ensures !ChangesHidden(m, urls, hidden) ==> WithHidden(m, urls, hidden) == m
  {
    var r := WithHidden(m, urls, hidden);
    WithHiddenKeys(m, urls, hidden);
    forall u | u in UrlSet(m) ensures Get(r, u) == Some(if u in urls then Get(m, u).value.(isHidden := hidden) else Get(m, u).value) {
      assert Find(r, u) == Find(m, u);
    }
    if !ChangesHidden(m, urls, hidden) {
      assert forall i :: 0 <= i < |m| ==> r[i] == m[i];
    }
  }

  /** One round of the `updateHiddenStatus` loop, for a url not handled yet. */
  lemma HiddenStep(m0: FavMap, done: set<string>, url: string, hidden: bool)
    requires UniqueUrls(m0) && url !in done
    ensures var cur := WithHidden(m0, done, hidden);
      Find(cur, url) == Find(m0, url) &&
      match Find(m0, url)
      case None =>
        WithHidden(m0, done + {url}, hidden) == cur &&
        (ChangesHidden(m0, done + {url}, hidden) <==> ChangesHidden(m0, done, hidden))
      case Some(i) =>
        cur[i] == m0[i] &&
        if m0[i].isHidden != hidden then
          WithHidden(m0, done + {url}, hidden) == cur[i := cur[i].(isHidden := hidden)] &&
          ChangesHidden(m0, done + {url}, hidden)
        else
          WithHidden(m0, done + {url}, hidden) == cur &&
          (ChangesHidden(m0, done + {url}, hidden) <==> ChangesHidden(m0, done, hidden))
  {
    var cur := WithHidden(m0, done, hidden);
    var next := WithHidden(m0, done + {url}, hidden);
    WithHiddenKeys(m0, done, hidden);
    var b := Find(m0, url);
    if b.None? {
      forall j | 0 <= j < |m0| ensures m0[j].url != url {
        assert m0[j].url in UrlSet(m0);
      }
    }
    match b
    case None =>
      assert next == cur;
    case Some(i) =>
      forall j | 0 <= j < |m0| && j != i ensures m0[j].url != url {
        assert m0[i].url == url;
      }
      if m0[i].isHidden != hidden {
        assert next == cur[i := cur[i].(isHidden := hidden)];
      } else {
        assert next == cur;
      }
  }

  // ---------------------------------------------------------------------------
  // The store

  class FavoriteStore {
    /** The JSON object stored under the favourites key, or none when nothing is stored. */
    var data: Option<JsonObject>

    constructor(stored: Option<JsonObject>)
      ensures data == stored
    {
      data := stored;
    }

    /** What `getFavoriteMap` hands its callback. */
    function FavoriteMap(): (m: FavMap)
      reads this
      ensures UniqueUrls(m)
      ensures data.None? ==> m == []
    {
      match data
      case None => []
      case Some(j) => JsonToMapProps(j); JsonToMap(j)
    }

    /** `jsonToHashMap`: the loop filling the linked map. */
    static method ParseFavorites(j: JsonObject) returns (m: FavMap)
      ensures m == JsonToMap(j)
    {
      m := [];
      var i := 0;
      while i < |j|
        invariant 0 <= i <= |j|
        invariant m == FromList(Values(j[..i]))
      {
        var fav := FromRecord(j[i].value);
        m := Put(m, fav);
        assert Values(j[..i + 1]) == Values(j[..i]) + [fav];
        i := i + 1;
      }
      assert j[..i] == j;
    }

    method GetFavoriteMap() returns (m: FavMap)
      ensures m == FavoriteMap()
    {
      match data
      case None =>
        m := [];
      case Some(j) =>
        m := ParseFavorites(j);
    }

    /** The first `addFavorite` loop: the network items the stored map lacks. */
    static method NewItems(favorites: seq<Favorite>, oldMap: FavMap) returns (finalOrderedMap: FavMap)
      ensures finalOrderedMap == FromList(Reject(favorites, UrlSet(oldMap)))
    {
      finalOrderedMap := [];
      var i := 0;
      while i < |favorites|
        invariant 0 <= i <= |favorites|
        invariant finalOrderedMap == FromList(Reject(favorites[..i], UrlSet(oldMap)))
      {
        var netFav := favorites[i];
        RejectStep(favorites, i, UrlSet(oldMap));
        if Get(oldMap, netFav.url).None? {
          finalOrderedMap := Put(finalOrderedMap, netFav);
        }
        i := i + 1;
      }
      assert favorites[..i] == favorites;
    }

    /** The second `addFavorite` loop: the stored items the network lists, retitled. */
    static method AddKept(newPart: FavMap, oldMap: FavMap, networkMap: FavMap) returns (finalOrderedMap: FavMap)
      requires UniqueUrls(oldMap) && UrlSet(newPart) * UrlSet(oldMap) == {}
      ensures finalOrderedMap == newPart + Kept(oldMap, networkMap)
    {
      finalOrderedMap := newPart;
      assert oldMap[..0] == [];
      var k := 0;
      while k < |oldMap|
        invariant 0 <= k <= |oldMap|
        invariant finalOrderedMap == newPart + Kept(oldMap[..k], networkMap)
      {
        var oldFav := oldMap[k];
        var netFav := Get(networkMap, oldFav.url);
        KeptPutStep(newPart, oldMap, k, networkMap);
        if netFav.Some? {
          var updatedFav := oldFav.(title := netFav.value.title);
          finalOrderedMap := Put(finalOrderedMap, updatedFav);
        }
        k := k + 1;
      }
      assert oldMap[..k] == oldMap;
    }

    /** `addFavorite`; the callback receives `list`. */
    method AddFavorite(favorites: seq<Favorite>) returns (list: FavMap)
      modifies this
      ensures list == Merge(favorites, old(FavoriteMap()))
      ensures data == Some(Encode(list))
      ensures FavoriteMap() == list
    {
      var oldMap := GetFavoriteMap();
      var networkMap := FromList(favorites);
      var newPart := NewItems(favorites, oldMap);
      RejectUrls(favorites, UrlSet(oldMap));
      FromListProps(Reject(favorites, UrlSet(oldMap)));
      list := AddKept(newPart, oldMap, networkMap);
      MergeUrls(favorites, oldMap);
      data := Some(Encode(list));
      RoundTrip(list);
    }

    /** `saveFavoriteOrder`: the list put into a fresh linked map, in list order, and stored. */
    method SaveFavoriteOrder(orderedList: seq<Favorite>)
      modifies this
      ensures data == Some(Encode(FromList(orderedList)))
      ensures FavoriteMap() == FromList(orderedList)
    {
      var favMap: FavMap := [];
      var i := 0;
      while i < |orderedList|
        invariant 0 <= i <= |orderedList|
        invariant favMap == FromList(orderedList[..i])
      {
        assert orderedList[..i + 1][..i] == orderedList[..i];
        favMap := Put(favMap, orderedList[i]);
        i := i + 1;
      }
      assert orderedList[..i] == orderedList;
      FromListProps(orderedList);
      RoundTrip(favMap);
      data := Some(Encode(favMap));
    }

    /** `updateFavorite`: nothing happens when nothing is stored. */
    method UpdateFavorite(favorite: Favorite)
      modifies this
      ensures old(data).None? ==> data == old(data)
      ensures old(data).Some? ==> data == Some(Encode(Put(old(FavoriteMap()), favorite)))
    {
      match data
      case None =>
      case Some(j) =>
        var favMap := ParseFavorites(j);
        favMap := Put(favMap, favorite);
        data := Some(Encode(favMap));
    }

    /**
     * `updateHiddenStatus`; `completed` says whether `onComplete` ran. The
     * store is written only when some listed flag differs.
     */
    method UpdateHiddenStatus(urls: set<string>, isHidden: bool) returns (written: bool, completed: bool)
      modifies this
      ensures completed
      ensures written <==> old(data).Some? && ChangesHidden(old(FavoriteMap()), urls, isHidden)
      ensures written ==> data == Some(Encode(WithHidden(old(FavoriteMap()), urls, isHidden)))
      ensures !written ==> data == old(data)
    {
      written := false;
      if data.None? {
        completed := true;
        return;
      }
      var favMap := ParseFavorites(data.value);
      JsonToMapProps(data.value);
      ghost var m0 := favMap;
      var changed := false;
      var todo := urls;
      while todo != {}
        invariant todo <= urls
        invariant |favMap| == |m0|
        invariant favMap == WithHidden(m0, urls - todo, isHidden)
        invariant changed <==> ChangesHidden(m0, urls - todo, isHidden)
        invariant data == old(data) && UniqueUrls(m0) && m0 == old(FavoriteMap())
        decreases |todo|
      {
        var url := PickFrom(todo);
        HiddenStep(m0, urls - todo, url, isHidden);
        match Find(favMap, url) {
          case None =>
          case Some(i) =>
            if favMap[i].isHidden != isHidden {
              favMap := favMap[i := favMap[i].(isHidden := isHidden)];
              changed := true;
            }
        }
        assert urls - (todo - {url}) == (urls - todo) + {url};
        todo := todo - {url};
      }
      assert urls - todo == urls;
      if changed {
        data := Some(Encode(favMap));
        written := true;
      }
      completed := true;
    }
  }
}
