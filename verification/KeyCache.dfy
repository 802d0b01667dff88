/**
 The key cache: an organisation map of caches, each split into 256 shards that hold
 15-byte subkeys. Every class is specified by one plain set, so what is proved here is
 that the three levels together are a set of (organisation, 16-byte key).
 */
module KeyCache {
  import opened Keys

  /** Keys whose first byte is below `n`, for shard contents `ds`. */
  function KeysBelow(ds: seq<set<SubKey>>, n: nat): set<Key>
    requires n <= |ds| <= SHARDS
  {
    set i: Byte, sub | 0 <= i < n && sub in ds[i] :: Join(i, sub)
  }

  function SumSizes(ds: seq<set<SubKey>>, n: nat): nat
    requires n <= |ds|
  {
    if n == 0 then 0 else SumSizes(ds, n - 1) + |ds[n - 1]|
  }

  /** The 16-byte keys that one shard stands for. */
  function ShardKeys(i: Byte, d: set<SubKey>): set<Key> {
    set sub | sub in d :: Join(i, sub)
  }

  lemma {:induction false} ShardKeysSize(i: Byte, d: set<SubKey>)
    ensures |ShardKeys(i, d)| == |d|
  {
    if d != {} {
      var x :| x in d;
      ShardKeysSize(i, d - {x});
      forall sub | sub in d - {x} ensures Join(i, sub) != Join(i, x) {
        assert Join(i, sub)[1..] == sub && Join(i, x)[1..] == x;
      }
      assert ShardKeys(i, d) == ShardKeys(i, d - {x}) + {Join(i, x)};
    }
  }

  /** The shard sizes add up to the number of distinct 16-byte keys. */
  lemma {:induction false} SumIsCardinality(ds: seq<set<SubKey>>, n: nat)
    requires n <= |ds| <= SHARDS
    ensures SumSizes(ds, n) == |KeysBelow(ds, n)|
  {
    if n == 0 {
      assert KeysBelow(ds, 0) == {};
    } else {
      SumIsCardinality(ds, n - 1);
      var last := ShardKeys(n - 1, ds[n - 1]);
      ShardKeysSize(n - 1, ds[n - 1]);
      assert KeysBelow(ds, n) == KeysBelow(ds, n - 1) + last;
      assert KeysBelow(ds, n - 1) !! last by {
        assert forall k :: k in last ==> k[0] == n - 1;
        assert forall k :: k in KeysBelow(ds, n - 1) ==> k[0] < n - 1;
      }
    }
  }

  /** A key belongs exactly when its last fifteen bytes sit in the shard of its first byte. */
  lemma {:induction false} Membership(ds: seq<set<SubKey>>, k: Key)
    requires |ds| == SHARDS
    ensures k in KeysBelow(ds, SHARDS) <==> k[1..] in ds[k[0]]
  {
    assert Join(k[0], k[1..]) == k;
    if k in KeysBelow(ds, SHARDS) {
      var i: Byte, sub: SubKey :| 0 <= i < SHARDS && sub in ds[i] && Join(i, sub) == k;
      assert k[0] == i && k[1..] == sub;
    }
  }

  /** One tenant's keys. A shard is a value inside the array, updated in its slot. */
  class Cache {
    const shards: array<set<SubKey>>

    ghost predicate Valid() {
      shards.Length == SHARDS
    }

    /** The keys held, as one set. */
    ghost function Contents(): set<Key>
      requires Valid()
      reads shards
    {
      KeysBelow(shards[..], SHARDS)
    }

    constructor ()
      ensures Valid() && fresh(shards) && Contents() == {}
    {
      shards := new set<SubKey>[SHARDS](_ => {});
    }

    method Touch(key: Key) returns (ok: bool)
      requires Valid()
      modifies shards
      ensures ok == (key in old(Contents()))
      ensures Contents() == old(Contents()) + {key}
    {
      Membership(shards[..], key);
      ok := TouchShard(key);
      forall k: Key ensures k in Contents() <==> k in old(Contents()) || k == key {
        Membership(shards[..], k);
        Membership(old(shards[..]), k);
        assert k == [k[0]] + k[1..] && key == [key[0]] + key[1..];
      }
    }

    /** The shard's own step: look the last fifteen bytes up, then record them. */
    method TouchShard(key: Key) returns (ok: bool)
      requires Valid()
      modifies shards
      ensures ok == (key[1..] in old(shards[key[0]]))
      ensures shards[..] == old(shards[..])[key[0] := old(shards[key[0]]) + {key[1..]}]
    {
      var sub: SubKey := key[1..];
      ok := sub in shards[key[0]];
      shards[key[0]] := shards[key[0]] + {sub};
    }

    method Len() returns (sum: nat)
      requires Valid()
      ensures sum == |Contents()|
    {
      sum := 0;
      for i := 0 to SHARDS
        invariant sum == SumSizes(shards[..], i)
      {
        sum := sum + |shards[i]|;
      }
      SumIsCardinality(shards[..], SHARDS);
    }

    method Clear(i: Byte) returns (size: nat)
      requires Valid()
      modifies shards
      ensures Contents() == set k | k in old(Contents()) && k[0] != i
      ensures size == |Contents()|
    {
      shards[i] := {};
      assert shards[..] == old(shards[..])[i := {}];
      forall k: Key ensures k in Contents() <==> k in old(Contents()) && k[0] != i {
        Membership(shards[..], k);
        Membership(old(shards[..]), k);
      }
      size := Len();
    }
  }

  /** Per-organisation key sets, as one set of qualified keys. */
  ghost function Flatten(view: map<Uint32, set<Key>>): set<MKey> {
    set o, k | o in view && k in view[o] :: MKey(k, o)
  }

  ghost function KeysAt(view: map<Uint32, set<Key>>, o: Uint32): set<Key> {
    if o in view then view[o] else {}
  }

  /** An organisation without keys might as well be missing. */
  lemma {:induction false} FlattenSame(u: map<Uint32, set<Key>>, v: map<Uint32, set<Key>>)
    ensures Flatten(u) == Flatten(v) <==> forall o :: KeysAt(u, o) == KeysAt(v, o)
  {
    if Flatten(u) == Flatten(v) {
      forall o ensures KeysAt(u, o) == KeysAt(v, o) {
        forall k ensures k in KeysAt(u, o) <==> k in KeysAt(v, o) {
          assert k in KeysAt(u, o) <==> MKey(k, o) in Flatten(u);
          assert k in KeysAt(v, o) <==> MKey(k, o) in Flatten(v);
        }
      }
    } else {
      if forall o :: KeysAt(u, o) == KeysAt(v, o) {
        forall m ensures m in Flatten(u) <==> m in Flatten(v) {
          assert m in Flatten(u) <==> m.key in KeysAt(u, m.org);
          assert m in Flatten(v) <==> m.key in KeysAt(v, m.org);
        }
      }
    }
  }

  lemma {:induction false} FlattenInsert(view: map<Uint32, set<Key>>, key: MKey)
    requires key.org in view
    ensures key in Flatten(view) <==> key.key in view[key.org]
    ensures Flatten(view[key.org := view[key.org] + {key.key}]) == Flatten(view) + {key}
  {
    var next := view[key.org := view[key.org] + {key.key}];
    forall m ensures m in Flatten(next) <==> m in Flatten(view) || m == key {
      assert m in Flatten(next) <==> m.org in next && m.key in next[m.org];
    }
  }

  lemma {:induction false} QualifiedSize(o: Uint32, ks: set<Key>)
    ensures |set k | k in ks :: MKey(k, o)| == |ks|
  {
    if ks == {} {
      assert (set k | k in ks :: MKey(k, o)) == {};
    } else {
      var x :| x in ks;
      QualifiedSize(o, ks - {x});
      assert (set k | k in ks :: MKey(k, o)) == (set k | k in ks - {x} :: MKey(k, o)) + {MKey(x, o)};
    }
  }

  /** One more organisation adds as many qualified keys as its cache holds. */
  lemma {:induction false} FlattenSize(view: map<Uint32, set<Key>>, o: Uint32, ks: set<Key>)
    requires o !in view
    ensures |Flatten(view[o := ks])| == |Flatten(view)| + |ks|
  {
    var own := set k | k in ks :: MKey(k, o);
    QualifiedSize(o, ks);
    assert Flatten(view[o := ks]) == Flatten(view) + own;
    assert Flatten(view) !! own;
  }

  /** `ks` without the keys of shard `i`. */
  ghost function Without(ks: set<Key>, i: Byte): set<Key> {
    set k | k in ks && k[0] != i
  }

  ghost function Cleared(ms: set<MKey>, i: Byte): set<MKey> {
    set m | m in ms && m.key[0] != i
  }

  function NextShard(i: Byte): Byte {
    (i + 1) % SHARDS
  }

  /** The view after the shard `i` of the organisations `orgs` was cleared, in that order. */
  ghost function ClearAll(view: map<Uint32, set<Key>>, orgs: seq<Uint32>, i: Byte): map<Uint32, set<Key>> {
    if orgs == [] then view else
    ClearOne(ClearAll(view, orgs[..|orgs| - 1], i), orgs[|orgs| - 1], i)
  }

  ghost function ClearOne(view: map<Uint32, set<Key>>, org: Uint32, i: Byte): map<Uint32, set<Key>> {
    if Without(KeysAt(view, org), i) == {} then view - {org}
    else view[org := Without(KeysAt(view, org), i)]
  }

  lemma {:induction false} ClearAllKeys(view: map<Uint32, set<Key>>, orgs: seq<Uint32>, i: Byte, o: Uint32)
    ensures KeysAt(ClearAll(view, orgs, i), o) ==
            if o in orgs then Without(KeysAt(view, o), i) else KeysAt(view, o)
    ensures o in orgs && o in ClearAll(view, orgs, i) ==> ClearAll(view, orgs, i)[o] != {}
    ensures o in ClearAll(view, orgs, i) ==> o in view
  {
    if orgs != [] {
      ClearAllKeys(view, orgs[..|orgs| - 1], i, o);
      assert orgs == orgs[..|orgs| - 1] + [orgs[|orgs| - 1]];
    }
  }

  lemma {:induction false} ClearAllFlattens(view: map<Uint32, set<Key>>, orgs: seq<Uint32>, i: Byte)
    requires forall o :: o in orgs <==> o in view
    ensures Flatten(ClearAll(view, orgs, i)) == Cleared(Flatten(view), i)
    ensures forall o :: o in ClearAll(view, orgs, i) ==> ClearAll(view, orgs, i)[o] != {}
  {
    var after := ClearAll(view, orgs, i);
    forall o ensures o in after ==> after[o] != {} {
      ClearAllKeys(view, orgs, i, o);
    }
    forall m ensures m in Flatten(after) <==> m in Cleared(Flatten(view), i) {
      ClearAllKeys(view, orgs, i, m.org);
      assert m in Flatten(after) <==> m.key in KeysAt(after, m.org);
      assert m in Flatten(view) <==> m.key in KeysAt(view, m.org);
    }
  }

  class KeyCache {
    var clearIdx: Byte
    var clearInterval: nat
    var caches: map<Uint32, Cache>

    /** Every cache is well formed and no two organisations share a shard. */
    ghost predicate Valid()
      reads this`caches
    {
      && (forall o :: o in caches ==> caches[o].Valid())
      && (forall o, p :: o in caches && p in caches && o != p ==>
            caches[o].shards != caches[p].shards)
    }

    ghost function Shards(): set<array<set<SubKey>>>
      reads this`caches
    {
      set o | o in caches :: caches[o].shards
    }

    ghost function View(): map<Uint32, set<Key>>
      requires Valid()
      reads this`caches, Shards()
    {
      map o | o in caches :: caches[o].Contents()
    }

    /** What the whole structure stands for: the set of (key, organisation) pairs seen. */
    ghost function Contents(): set<MKey>
      requires Valid()
      reads this`caches, Shards()
    {
      Flatten(View())
    }

    /** A full round of ticks fits the configured interval. */
    constructor (interval: nat)
      ensures Valid() && caches == map[] && Contents() == {} && clearIdx == 0
      ensures SHARDS * clearInterval <= interval < SHARDS * clearInterval + SHARDS
    {
      clearIdx, clearInterval, caches := 0, interval / SHARDS, map[];
    }

    /** The organisation's cache, created empty when missing: nothing a caller can see. */
    method CacheOf(org: Uint32) returns (c: Cache)
      requires Valid()
      modifies this`caches
      ensures Valid() && fresh(Shards() - old(Shards()))
      ensures org in caches && c == caches[org]
      ensures Contents() == old(Contents())
    {
      if org !in caches {
        c := new Cache();
        caches := caches[org := c];
        assert View() == old(View())[org := {}];
        FlattenSame(View(), old(View()));
      }
      c := caches[org];
    }

    /** Membership, then insertion. */
    method Touch(key: MKey) returns (seen: bool)
      requires Valid()
      modifies this`caches, Shards()
      ensures Valid() && fresh(Shards() - old(Shards()))
      ensures seen == (key in old(Contents()))
      ensures Contents() == old(Contents()) + {key}
    {
      var c := CacheOf(key.org);
      ghost var view := View();
      FlattenInsert(view, key);
      seen := c.Touch(key.key);
      assert View() == view[key.org := view[key.org] + {key.key}];
    }

    /** The caches in some order, as a map iteration yields them. */
    method Targets() returns (orgs: seq<Uint32>)
      ensures forall o :: o in orgs <==> o in caches
      ensures forall i, j :: 0 <= i < j < |orgs| ==> orgs[i] != orgs[j]
    {
      orgs := [];
      var rest := caches.Keys;
      while rest != {}
        invariant rest <= caches.Keys
        invariant forall o :: o in orgs <==> o in caches && o !in rest
        invariant forall i, j :: 0 <= i < j < |orgs| ==> orgs[i] != orgs[j]
        decreases rest
      {
        var o :| o in rest;
        orgs := orgs + [o];
        rest := rest - {o};
      }
    }

    method Len() returns (sum: nat)
      requires Valid()
      ensures sum == |Contents()|
    {
      var orgs := Targets();
      sum := 0;
      ghost var counted: map<Uint32, set<Key>> := map[];
      for i := 0 to |orgs|
        invariant counted.Keys == set o | o in orgs[..i]
        invariant forall o :: o in counted ==> o in caches && counted[o] == View()[o]
        invariant sum == |Flatten(counted)|
      {
        var l := caches[orgs[i]].Len();
        FlattenSize(counted, orgs[i], View()[orgs[i]]);
        counted := counted[orgs[i] := View()[orgs[i]]];
        sum := sum + l;
      }
      assert orgs[..|orgs|] == orgs;
      assert counted == View();
    }

    /**
     One turn of the clearing loop: reset the shard `clearIdx` of every cache, unlink the
     caches this empties, and move on to the next shard.
     */
    method Tick()
      requires Valid()
      modifies this`caches, this`clearIdx, Shards()
      ensures Valid() && Shards() <= old(Shards())
      ensures Contents() == Cleared(old(Contents()), old(clearIdx))
      ensures clearIdx == NextShard(old(clearIdx))
      ensures forall o :: o in caches ==> View()[o] != {}
    {
      var orgs := Targets();
      ClearEvery(orgs);
      label cleared:
      clearIdx := if clearIdx + 1 == SHARDS then 0 else clearIdx + 1;
      SameView@cleared();
    }

    twostate lemma {:induction false} SameView()
      requires old(Valid()) && caches == old(caches)
      requires forall o :: o in caches ==> caches[o].shards[..] == old(caches[o].shards[..])
      ensures View() == old(View()) && Contents() == old(Contents())
    {
    }

    method ClearEvery(orgs: seq<Uint32>)
      requires Valid()
      requires forall o :: o in orgs <==> o in caches
      requires forall i, j :: 0 <= i < j < |orgs| ==> orgs[i] != orgs[j]
      modifies this`caches, Shards()
      ensures Valid() && Shards() <= old(Shards())
      ensures Contents() == Cleared(old(Contents()), clearIdx)
      ensures forall o :: o in caches ==> View()[o] != {}
    {
      ghost var before := View();
      ClearAllFlattens(before, orgs, clearIdx);
      ClearTargets(orgs);
      assert View() == ClearAll(before, orgs, clearIdx);
    }

    method ClearTargets(orgs: seq<Uint32>)
      requires Valid()
      requires forall i :: 0 <= i < |orgs| ==> orgs[i] in caches
      requires forall i, j :: 0 <= i < j < |orgs| ==> orgs[i] != orgs[j]
      modifies this`caches, Shards()
      ensures Valid() && Shards() <= old(Shards())
      ensures View() == ClearAll(old(View()), orgs, clearIdx)
    {
      for n := 0 to |orgs|
        invariant Valid() && Shards() <= old(Shards())
        invariant forall i :: n <= i < |orgs| ==> orgs[i] in caches
        invariant View() == ClearAll(old(View()), orgs[..n], clearIdx)
      {
        assert orgs[..n + 1][..n] == orgs[..n];
        ClearTarget(orgs[n]);
      }
      assert orgs[..|orgs|] == orgs;
    }

    method ClearTarget(org: Uint32)
      requires Valid() && org in caches
      modifies this`caches, caches[org].shards
      ensures Valid() && Shards() <= old(Shards())
      ensures View() == ClearOne(old(View()), org, clearIdx)
      ensures forall o :: o != org ==> (o in caches <==> o in old(caches))
    {
      var size := caches[org].Clear(clearIdx);
      if size == 0 {
        caches := caches - {org};
      }
    }
  }
}
