/**
 The ordered dictionaries of package attributes: what storing attributes does to them, and exactly
 which dictionaries come back when their printed attributes are stored again.
 */
module PackageDicts {
  import opened Wrappers
  import opened Packages

  // ----- Looking up and storing -----

  lemma {:induction false} PutNew(d: Dict, k: string, v: Option<string>)
    requires !Has(d, k)
    ensures Put(d, k, v) == d + [(k, v)]
  {
    if d != [] {
      assert !Has(d[1..], k);
      PutNew(d[1..], k, v);
    }
  }

  lemma {:induction false} PutMiddle(d: Dict, k: string, v0: Option<string>, e: Dict, v: Option<string>)
    requires !Has(d, k)
    ensures Put(d + [(k, v0)] + e, k, v) == d + [(k, v)] + e
    ensures Lookup(d + [(k, v0)] + e, k) == v0
  {
    var s := d + [(k, v0)] + e;
    if d == [] {
      assert s[0] == (k, v0) && s[1..] == e;
    } else {
      assert !Has(d[1..], k);
      assert s[0] == d[0] && s[1..] == d[1..] + [(k, v0)] + e;
      PutMiddle(d[1..], k, v0, e, v);
    }
  }

  lemma {:induction false} LookupAbsent(d: Dict, k: string)
    requires !Has(d, k)
    ensures Lookup(d, k).None?
  {
    if d != [] {
      assert !Has(d[1..], k);
      LookupAbsent(d[1..], k);
    }
  }

  lemma {:induction false} LookupPrefix(d: Dict, e: Dict, k: string)
    requires Has(d, k)
    ensures Lookup(d + e, k) == Lookup(d, k)
  {
    assert (d + e)[0] == d[0];
    if d[0].0 != k {
      var i :| 0 <= i < |d| && d[i].0 == k;
      assert d[1..][i - 1].0 == k;
      assert (d + e)[1..] == d[1..] + e;
      LookupPrefix(d[1..], e, k);
    }
  }

  lemma {:induction false} LookupPut(d: Dict, k: string, v: Option<string>, x: string)
    ensures Lookup(Put(d, k, v), x) == if x == k then v else Lookup(d, x)
  {
    if d == [] {
      assert [(k, v)][1..] == [];
    } else {
      LookupPut(d[1..], k, v, x);
      assert ([(k, v)] + d[1..])[1..] == d[1..];
      assert ([d[0]] + Put(d[1..], k, v))[1..] == Put(d[1..], k, v);
    }
  }

  lemma {:induction false} LookupAt(d: Dict, i: nat)
    requires Unique(d) && i < |d|
    ensures Lookup(d, d[i].0) == d[i].1
  {
    if i > 0 {
      assert d[1..][i - 1] == d[i];
      LookupAt(d[1..], i - 1);
    }
  }

  lemma {:induction false} PutHas(d: Dict, k: string, v: Option<string>)
    ensures Has(Put(d, k, v), k)
  {
    var d' := Put(d, k, v);
    if d == [] || d[0].0 == k {
      assert d'[0].0 == k;
    } else {
      PutHas(d[1..], k, v);
      var i :| 0 <= i < |Put(d[1..], k, v)| && Put(d[1..], k, v)[i].0 == k;
      assert d'[i + 1].0 == k;
    }
  }

  lemma {:induction false} PutElement(d: Dict, k: string, v: Option<string>, j: nat)
    requires j < |Put(d, k, v)|
    ensures Put(d, k, v)[j] == (k, v) || Put(d, k, v)[j] in d
  {
    if d != [] && d[0].0 != k && j > 0 {
      PutElement(d[1..], k, v, j - 1);
    }
  }

  lemma {:induction false} PutKeepsKeys(d: Dict, k: string, v: Option<string>, x: string)
    requires Has(d, x)
    ensures Has(Put(d, k, v), x)
  {
    var d' := Put(d, k, v);
    if d[0].0 == x {
      assert d'[0].0 == x;
    } else if d[0].0 != k {
      var i :| 0 <= i < |d| && d[i].0 == x;
      assert d[1..][i - 1].0 == x;
      PutKeepsKeys(d[1..], k, v, x);
      var j :| 0 <= j < |Put(d[1..], k, v)| && Put(d[1..], k, v)[j].0 == x;
      assert d'[j + 1].0 == x;
    } else {
      var i :| 0 <= i < |d| && d[i].0 == x;
      assert d'[i].0 == x;
    }
  }

  lemma {:induction false} KeysApart(d: Dict, e: Dict)
    requires Unique(d + e) && e != []
    ensures !Has(d, e[0].0)
    ensures Unique((d + [e[0]]) + e[1..])
  {
    assert (d + e)[|d|] == e[0];
    forall i | 0 <= i < |d| ensures d[i].0 != e[0].0 { assert (d + e)[i] == d[i]; }
    assert (d + [e[0]]) + e[1..] == d + e;
  }

  lemma {:induction false} HasSnoc(d: Dict, k: string, v: Option<string>, x: string)
    ensures Has(d + [(k, v)], x) <==> Has(d, x) || k == x
  {
    var d' := d + [(k, v)];
    assert d'[|d|] == (k, v);
    if Has(d, x) {
      var i :| 0 <= i < |d| && d[i].0 == x;
      assert d'[i].0 == x;
    }
  }

  lemma {:induction false} HasConcat(a: Dict, c: Dict, k: string)
    ensures Has(a + c, k) <==> Has(a, k) || Has(c, k)
  {
    assert forall i :: 0 <= i < |a| ==> (a + c)[i] == a[i];
    assert forall i :: 0 <= i < |c| ==> (a + c)[|a| + i] == c[i];
  }

  lemma {:induction false} OnlyOne(k: string, v: Option<string>, x: string)
    ensures Has([(k, v)], x) <==> k == x
  {
    assert [(k, v)][0].0 == k;
  }

  lemma {:induction false} Names()
    ensures VERSION != REQUIRE && VERSION != "" && REQUIRE != "" && FILENAME != ""
    ensures !Excluded(VERSION) && !Excluded(REQUIRE) && !Excluded(FILENAME)
    ensures FILENAME != REQUIRE && FILENAME != VERSION
  {
    assert VERSION[0] == 'V' && REQUIRE[0] == 'R';
  }

  lemma {:induction false} UniqueWithout(a: Dict, k: string, v: Option<string>, c: Dict)
    requires Unique(a + [(k, v)] + c)
    ensures Unique(a + c) && !Has(a, k) && !Has(c, k)
  {
    var all, rest := a + [(k, v)] + c, a + c;
    assert all[|a|] == (k, v);
    assert forall i :: 0 <= i < |a| ==> all[i] == a[i] && rest[i] == a[i];
    assert forall i :: 0 <= i < |c| ==> all[|a| + 1 + i] == c[i] && rest[|a| + i] == c[i];
  }

  lemma {:induction false} UniqueWith(a: Dict, k: string, v: Option<string>, c: Dict)
    requires Unique(a + c) && !Has(a, k) && !Has(c, k)
    ensures Unique(a + [(k, v)] + c)
  {
    var all, rest := a + [(k, v)] + c, a + c;
    assert all[|a|] == (k, v);
    assert forall i :: 0 <= i < |a| ==> all[i] == a[i] && rest[i] == a[i];
    assert forall i :: 0 <= i < |c| ==> all[|a| + 1 + i] == c[i] && rest[|a| + i] == c[i];
  }

  lemma {:induction false} UniquePrefix(a: Dict, c: Dict)
    requires Unique(a + c)
    ensures Unique(a)
  {
    assert forall i :: 0 <= i < |a| ==> (a + c)[i] == a[i];
  }

  lemma {:induction false} Assoc(a: Dict, c: Dict, e: Dict)
    ensures a + c + e == a + (c + e)
  {
  }

  lemma {:induction false} SplitLast(b: Dict) returns (init: Dict, k: string, v: Option<string>)
    requires b != []
    ensures b == init + [(k, v)] && init == b[..|b| - 1] && (k, v) == b[|b| - 1]
  {
    init := b[..|b| - 1];
    k, v := b[|b| - 1].0, b[|b| - 1].1;
    assert b[|b| - 1] == (k, v);
  }

  lemma {:induction false} NewBehind(b: Dict, k: string, v: Option<string>)
    requires Unique(b + [(k, v)])
    ensures !Has(b, k) && Unique(b) && Put(b, k, v) == b + [(k, v)]
  {
    var b' := b + [(k, v)];
    assert b'[|b|] == (k, v);
    forall i | 0 <= i < |b| ensures b[i].0 != k && b'[i] == b[i] {
      assert b'[i] == b[i];
    }
    PutNew(b, k, v);
  }

  // ----- Reading attributes one after the other -----

  /** The record after an attribute has been read in full. */
  function Read(r: Record, k: string, v: string): Record {
    Record(if r.attribute == "" then r.stored else Store(r.stored, r.attribute, r.value), k, v)
  }

  /** The record after printed attributes have been read. */
  function ReadDict(r: Record, d: Dict): Record
    decreases |d|
  {
    if d == [] then r else ReadDict(if d[0].1.None? then r else Read(r, d[0].0, d[0].1.value), d[1..])
  }

  /** The dictionary with the attribute being read stored as well. */
  function Flush(r: Record): Dict {
    if r.attribute == "" then r.stored else Store(r.stored, r.attribute, r.value)
  }

  /** Stores attributes one after the other, skipping those that are not printed. */
  function StoreAll(d: Dict, e: Dict): Dict
    decreases |e|
  {
    if e == [] then d else StoreAll(if e[0].1.None? then d else Store(d, e[0].0, e[0].1.value), e[1..])
  }

  lemma {:induction false} FlushReadDict(r: Record, d: Dict)
    requires forall i :: 0 <= i < |d| ==> d[i].0 != ""
    ensures Flush(ReadDict(r, d)) == StoreAll(Flush(r), d)
    decreases |d|
  {
    hide Store;
    if d != [] {
      FlushReadDict(if d[0].1.None? then r else Read(r, d[0].0, d[0].1.value), d[1..]);
    }
  }

  lemma {:induction false} StoreAllConcat(d: Dict, a: Dict, c: Dict)
    ensures StoreAll(d, a + c) == StoreAll(StoreAll(d, a), c)
    decreases |a|
  {
    hide Store;
    if a == [] {
      assert a + c == c;
    } else {
      assert (a + c)[0] == a[0] && (a + c)[1..] == a[1..] + c;
      StoreAllConcat(if a[0].1.None? then d else Store(d, a[0].0, a[0].1.value), a[1..], c);
    }
  }

  lemma {:induction false} StoreOne(d: Dict, k: string, v: Option<string>)
    ensures StoreAll(d, [(k, v)]) == if v.None? then d else Store(d, k, v.value)
  {
    hide Store;
    var a := [(k, v)];
    assert a[1..] == [];
    assert StoreAll(d, a) == StoreAll(if v.None? then d else Store(d, k, v.value), []);
  }

  lemma {:induction false} StoreNew(d: Dict, k: string, v: string)
    requires !Has(d, k) && (k == VERSION ==> Has(d, REQUIRE) && Truthy(Lookup(d, REQUIRE)))
    ensures Store(d, k, v) == d + [(k, Some(v))]
    ensures Has(d, REQUIRE) ==> Has(Store(d, k, v), REQUIRE) && Lookup(Store(d, k, v), REQUIRE) == Lookup(d, REQUIRE)
  {
    hide VERSION, REQUIRE, Put, Lookup, Has;
    PutNew(d, k, Some(v));
    HasSnoc(d, k, Some(v), REQUIRE);
    if Has(d, REQUIRE) { LookupPrefix(d, [(k, Some(v))], REQUIRE); }
  }

  /** Attributes with new names go to the end, unless a Version meets an unset Require. */
  lemma {:induction false} StoreAppends(d: Dict, e: Dict)
    requires Unique(d + e) && forall i :: 0 <= i < |e| ==> e[i].1.Some?
    requires (Has(d, REQUIRE) && Truthy(Lookup(d, REQUIRE))) || forall i :: 0 <= i < |e| ==> e[i].0 != VERSION
    ensures StoreAll(d, e) == d + e
    decreases |e|
  {
    hide VERSION, REQUIRE, Store, Lookup, Has, Unique;
    if e == [] {
      assert d + e == d;
    } else {
      KeysApart(d, e);
      StoreNew(d, e[0].0, e[0].1.value);
      assert e[0] == (e[0].0, e[0].1) && d + [e[0]] + e[1..] == d + e;
      StoreAppends(d + [e[0]], e[1..]);
    }
  }

  /** Storing a new Version adds an unset Require behind it. */
  lemma {:induction false} StoreVersion(d: Dict, v: string)
    requires !Has(d, VERSION) && !Has(d, REQUIRE)
    ensures Store(d, VERSION, v) == d + [(VERSION, Some(v))] + [(REQUIRE, None)]
  {
    Names();
    hide VERSION, REQUIRE, Put, Lookup, Has;
    PutNew(d, VERSION, Some(v));
    HasSnoc(d, VERSION, Some(v), REQUIRE);
    LookupAbsent(d + [(VERSION, Some(v))], REQUIRE);
    PutNew(d + [(VERSION, Some(v))], REQUIRE, None);
  }

  // ----- What printed attributes are read back as -----

  function Reread(b: Dict): Dict {
    Finish(ReadDict(START, b))
  }

  /** Attributes with a value, neither Version nor Require. */
  ghost predicate Others(x: Dict) {
    forall i :: 0 <= i < |x| ==> x[i].1.Some? && x[i].0 != "" && x[i].0 != VERSION && x[i].0 != REQUIRE
  }

  /** The three ways in which a parsed Require can stand to Version. */
  datatype Shape =
    | NoVersion(x: Dict, q: Option<string>, y: Dict)
    | VersionFirst(x: Dict, w: string, q: Option<string>, y: Dict)
    | RequireFirst(x: Dict, q: Option<string>, y: Dict, w: string, z: Dict)

  function Whole(s: Shape): Dict {
    match s
    case NoVersion(x, q, y) => x + [(REQUIRE, q)] + y
    case VersionFirst(x, w, q, y) => x + [(VERSION, Some(w))] + [(REQUIRE, q)] + y
    case RequireFirst(x, q, y, w, z) => x + [(REQUIRE, q)] + y + [(VERSION, Some(w))] + z
  }

  ghost predicate ShapeOk(s: Shape) {
    && Others(s.x) && Others(s.y)
    && (s.NoVersion? && s.q.None? ==> s.y == [])
    && (s.RequireFirst? ==> Others(s.z))
  }

  lemma {:induction false} OthersLack(x: Dict)
    requires Others(x)
    ensures !Has(x, VERSION) && !Has(x, REQUIRE)
  {
  }

  lemma {:induction false} ReadDictSnoc(r: Record, b: Dict, a: (string, Option<string>))
    ensures ReadDict(r, b + [a]) == if a.1.None? then ReadDict(r, b) else Read(ReadDict(r, b), a.0, a.1.value)
    decreases |b|
  {
    hide Read;
    if b == [] {
      assert b + [a] == [a] && [a][1..] == [];
      assert ReadDict(r, [a]) == ReadDict(if a.1.None? then r else Read(r, a.0, a.1.value), []);
    } else {
      assert (b + [a])[0] == b[0] && (b + [a])[1..] == b[1..] + [a];
      ReadDictSnoc(if b[0].1.None? then r else Read(r, b[0].0, b[0].1.value), b[1..], a);
    }
  }

  /** The last attribute is put without the rule for Version. */
  lemma {:induction false} RereadSnoc(b: Dict, k: string, v: Option<string>)
    requires k != "" && forall i :: 0 <= i < |b| ==> b[i].0 != ""
    ensures Reread(b + [(k, v)]) == if v.None? then Reread(b) else WithRequire(Put(StoreAll([], b), k, v))
  {
    hide WithRequire, Put, Store, ReadDict, StoreAll;
    ReadDictSnoc(START, b, (k, v));
    FlushReadDict(START, b);
  }

  /** What is stored of `b`, followed by an attribute `k` with a value. */
  lemma {:induction false} RereadStored(b: Dict, stored: Dict, k: string, v: Option<string>)
    requires StoreAll([], b) == stored && Unique(stored + [(k, v)]) && v.Some? && k != ""
    requires forall i :: 0 <= i < |b| ==> b[i].0 != ""
    ensures Reread(b + [(k, v)]) == WithRequire(stored + [(k, v)])
  {
    hide WithRequire, Reread, StoreAll;
    RereadSnoc(b, k, v);
    NewBehind(stored, k, v);
  }

  /** The attribute read last has the value that was read. */
  lemma {:induction false} RereadLast(b: Dict, k: string, v: string)
    requires k != "" && forall i :: 0 <= i < |b| ==> b[i].0 != ""
    ensures Lookup(Reread(b + [(k, Some(v))]), k) == Some(v)
  {
    hide REQUIRE, StoreAll, Put, Lookup, Reread;
    RereadSnoc(b, k, Some(v));
    var d := Put(StoreAll([], b), k, Some(v));
    LookupPut(StoreAll([], b), k, Some(v), k);
    LookupPut(d, REQUIRE, None, k);
    if k == REQUIRE { PutHas(StoreAll([], b), k, Some(v)); }
  }

  /** Without a Version everything is stored as it comes. */
  lemma {:induction false} StoredPlainly(b: Dict)
    requires Unique(b) && forall i :: 0 <= i < |b| ==> b[i].1.Some? && b[i].0 != VERSION
    ensures StoreAll([], b) == b
  {
    hide VERSION, REQUIRE, StoreAll;
    assert [] + b == b;
    StoreAppends([], b);
  }

  lemma {:induction false} RereadPlainly(b: Dict)
    requires Unique(b) && forall i :: 0 <= i < |b| ==> b[i].1.Some? && b[i].0 != VERSION && b[i].0 != ""
    ensures Reread(b) == WithRequire(b)
  {
    hide VERSION, REQUIRE, StoreAll, WithRequire;
    if b != [] {
      var init, k, v := SplitLast(b);
      NewBehind(init, k, v);
      assert forall i :: 0 <= i < |init| ==> init[i] == b[i];
      StoredPlainly(init);
      hide Reread;
      RereadStored(init, init, k, v);
    }
  }

  // ----- No Version -----

  lemma {:induction false} RereadNoVersion(x: Dict, q: Option<string>, y: Dict)
    requires ShapeOk(NoVersion(x, q, y)) && Unique(Whole(NoVersion(x, q, y)))
    ensures Reread(Whole(NoVersion(x, q, y))) == Whole(NoVersion(x, q, y))
  {
    Names();
    hide VERSION, REQUIRE, Reread;
    var b := x + [(REQUIRE, q)] + y;
    OthersLack(x);
    if q.None? {
      UniqueWithout(x, REQUIRE, q, y);
      assert x + y == x && b == x + [(REQUIRE, q)];
      RereadSnoc(x, REQUIRE, None);
      RereadPlainly(x);
      PutNew(x, REQUIRE, None);
    } else {
      assert forall i :: 0 <= i < |b| ==> b[i].1.Some? && b[i].0 != VERSION && b[i].0 != "";
      RereadPlainly(b);
      assert b[|x|].0 == REQUIRE;
    }
  }

  // ----- Version before Require -----

  lemma {:induction false} StoreRequireOver(d: Dict, q: Option<string>)
    requires !Has(d, REQUIRE)
    ensures StoreAll(d + [(REQUIRE, None)], [(REQUIRE, q)]) == d + [(REQUIRE, q)]
  {
    Names();
    hide VERSION, REQUIRE, Put, Lookup, StoreAll;
    StoreOne(d + [(REQUIRE, None)], REQUIRE, q);
    PutMiddle(d, REQUIRE, None, [], q);
    assert d + [(REQUIRE, None)] + [] == d + [(REQUIRE, None)] && d + [(REQUIRE, q)] + [] == d + [(REQUIRE, q)];
  }

  lemma {:induction false} StoredVersionFirst(x: Dict, w: string, q: Option<string>, y: Dict)
    requires ShapeOk(VersionFirst(x, w, q, y)) && Unique(Whole(VersionFirst(x, w, q, y)))
    ensures StoreAll([], Whole(VersionFirst(x, w, q, y))) == Whole(VersionFirst(x, w, q, y))
  {
    Names();
    OthersLack(x);
    assert forall i :: 0 <= i < |x| ==> x[i].1.Some? && x[i].0 != VERSION;
    assert forall i :: 0 <= i < |y| ==> y[i].1.Some? && y[i].0 != VERSION;
    hide VERSION, REQUIRE, Put, Lookup, StoreAll, Store, Others, Has, Unique;
    var xv := x + [(VERSION, Some(w))];
    var xvq := xv + [(REQUIRE, q)];
    UniquePrefix(xvq, y);
    UniquePrefix(xv, [(REQUIRE, q)]);
    UniquePrefix(x, [(VERSION, Some(w))]);
    HasSnoc(x, VERSION, Some(w), REQUIRE);
    StoredPlainly(x);
    StoreAllConcat([], x, [(VERSION, Some(w))]);
    StoreOne(x, VERSION, Some(w));
    StoreVersion(x, w);
    StoreAllConcat([], xv, [(REQUIRE, q)]);
    StoreRequireOver(xv, q);
    StoreAllConcat([], xvq, y);
    StoreAppends(xvq, y);
  }

  lemma {:induction false} RereadVersionFirst(x: Dict, w: string, q: Option<string>, y: Dict)
    requires ShapeOk(VersionFirst(x, w, q, y)) && Unique(Whole(VersionFirst(x, w, q, y)))
    ensures Reread(Whole(VersionFirst(x, w, q, y))) == Whole(VersionFirst(x, w, q, y))
  {
    Names();
    OthersLack(x);
    hide VERSION, REQUIRE, Put, Lookup, StoreAll, Store, Has, Reread;
    var xv := x + [(VERSION, Some(w))];
    var b := xv + [(REQUIRE, q)] + y;
    HasSnoc(x, VERSION, Some(w), REQUIRE);
    UniquePrefix(xv + [(REQUIRE, q)], y);
    UniquePrefix(xv, [(REQUIRE, q)]);
    UniquePrefix(x, [(VERSION, Some(w))]);
    if y == [] {
      assert b == xv + [(REQUIRE, q)];
      RereadSnoc(xv, REQUIRE, q);
      if q.None? {
        StoredPlainly(x);
        RereadStored(x, x, VERSION, Some(w));
        PutNew(xv, REQUIRE, None);
      } else {
        StoredPlainly(x);
        StoreAllConcat([], x, [(VERSION, Some(w))]);
        StoreOne(x, VERSION, Some(w));
        StoreVersion(x, w);
        PutMiddle(xv, REQUIRE, None, [], q);
        assert xv + [(REQUIRE, None)] + [] == xv + [(REQUIRE, None)] && xv + [(REQUIRE, q)] + [] == b;
        HasSnoc(xv, REQUIRE, q, REQUIRE);
      }
    } else {
      var init, k, v := SplitLast(y);
      assert b == Whole(VersionFirst(x, w, q, init)) + [(k, v)];
      UniquePrefix(Whole(VersionFirst(x, w, q, init)), [(k, v)]);
      StoredVersionFirst(x, w, q, init);
      RereadStored(Whole(VersionFirst(x, w, q, init)), Whole(VersionFirst(x, w, q, init)), k, v);
      HasConcat(xv + [(REQUIRE, q)], y, REQUIRE);
      HasSnoc(xv, REQUIRE, q, REQUIRE);
    }
  }

  // ----- Require before Version -----

  /** What is stored: an unset Require moves behind Version, and an empty one is unset. */
  function StoredForm(x: Dict, q: Option<string>, y: Dict, w: string, z: Dict): Dict {
    if q.None? then x + y + [(VERSION, Some(w))] + [(REQUIRE, None)] + z
    else x + [(REQUIRE, if q.value == "" then None else q)] + y + [(VERSION, Some(w))] + z
  }

  lemma {:induction false} StoredFormUnique(x: Dict, q: Option<string>, y: Dict, w: string, z: Dict)
    requires ShapeOk(RequireFirst(x, q, y, w, z)) && Unique(Whole(RequireFirst(x, q, y, w, z)))
    ensures Unique(StoredForm(x, q, y, w, z)) && Unique(x + y + z)
  {
    Names();
    OthersLack(x);
    OthersLack(y);
    OthersLack(z);
    hide VERSION, REQUIRE, Others, Has, Unique;
    var v := [(VERSION, Some(w))];
    UniqueWithout(x + [(REQUIRE, q)] + y, VERSION, Some(w), z);
    assert x + [(REQUIRE, q)] + y + z == x + [(REQUIRE, q)] + (y + z);
    UniqueWithout(x, REQUIRE, q, y + z);
    assert x + (y + z) == x + y + z;
    HasConcat(x, y, REQUIRE);
    HasConcat(x, y, VERSION);
    if q.None? {
      UniqueWith(x + y, REQUIRE, None, z);
      assert x + y + [(REQUIRE, None)] + z == x + y + ([(REQUIRE, None)] + z);
      HasConcat([(REQUIRE, None)], z, VERSION);
      OnlyOne(REQUIRE, None, VERSION);
      UniqueWith(x + y, VERSION, Some(w), [(REQUIRE, None)] + z);
      assert x + y + v + ([(REQUIRE, None)] + z) == x + y + v + [(REQUIRE, None)] + z;
    } else {
      var q' := if q.value == "" then None else q;
      assert x + [(REQUIRE, q)] + y + v + z == x + [(REQUIRE, q)] + (y + v + z);
      UniqueWithout(x, REQUIRE, q, y + v + z);
      UniqueWith(x, REQUIRE, q', y + v + z);
      assert x + [(REQUIRE, q')] + (y + v + z) == x + [(REQUIRE, q')] + y + v + z;
    }
  }

  /** Storing a Version behind a Require that has a value. */
  lemma {:induction false} StoreBehindRequire(x: Dict, q: string, y: Dict, w: string)
    requires !Has(x, REQUIRE) && !Has(x + [(REQUIRE, Some(q))] + y, VERSION)
    ensures Store(x + [(REQUIRE, Some(q))] + y, VERSION, w)
            == x + [(REQUIRE, if q == "" then None else Some(q))] + y + [(VERSION, Some(w))]
  {
    hide VERSION, REQUIRE, Put, Lookup, Has;
    var p, v := x + [(REQUIRE, Some(q))] + y, [(VERSION, Some(w))];
    PutNew(p, VERSION, Some(w));
    assert p + v == x + [(REQUIRE, Some(q))] + (y + v);
    PutMiddle(x, REQUIRE, Some(q), y + v, None);
    assert x + [(REQUIRE, None)] + (y + v) == x + [(REQUIRE, None)] + y + v;
  }

  lemma {:induction false} StoredUpToVersion(x: Dict, q: Option<string>, y: Dict, w: string)
    requires Others(x) && Others(y) && Unique(x + [(REQUIRE, q)] + y) && Unique(x + y)
    ensures StoreAll([], x + [(REQUIRE, q)] + y) == if q.None? then x + y else x + [(REQUIRE, q)] + y
    ensures StoreAll([], x + [(REQUIRE, q)] + y + [(VERSION, Some(w))]) == StoredForm(x, q, y, w, [])
  {
    Names();
    OthersLack(x);
    OthersLack(y);
    assert forall i :: 0 <= i < |x| ==> x[i].1.Some? && x[i].0 != VERSION;
    assert forall i :: 0 <= i < |y| ==> y[i].1.Some? && y[i].0 != VERSION;
    var p := x + [(REQUIRE, q)] + y;
    assert q.Some? ==> forall i :: 0 <= i < |p| ==> p[i].1.Some? && p[i].0 != VERSION;
    hide VERSION, REQUIRE, Put, Lookup, StoreAll, Store, Others, Unique, Has;
    UniquePrefix(x, y);
    HasConcat(x, y, VERSION);
    HasConcat(x, y, REQUIRE);
    HasSnoc(x, REQUIRE, q, VERSION);
    HasConcat(x + [(REQUIRE, q)], y, VERSION);
    if q.None? {
      StoredPlainly(x);
      StoreAllConcat([], x, [(REQUIRE, q)]);
      StoreOne(x, REQUIRE, None);
      StoreAllConcat([], x + [(REQUIRE, q)], y);
      StoreAppends(x, y);
      StoreVersion(x + y, w);
      StoreOne(x + y, VERSION, Some(w));
    } else {
      StoredPlainly(p);
      StoreBehindRequire(x, q.value, y, w);
      StoreOne(p, VERSION, Some(w));
    }
    StoreAllConcat([], p, [(VERSION, Some(w))]);
    var f := StoredForm(x, q, y, w, []);
    assert q.None? ==> f == x + y + [(VERSION, Some(w))] + [(REQUIRE, None)];
    assert q.Some? ==> f == x + [(REQUIRE, if q.value == "" then None else q)] + y + [(VERSION, Some(w))];
  }

  lemma {:induction false} StoredFormBehind(x: Dict, q: Option<string>, y: Dict, w: string, z: Dict, e: Dict)
    ensures StoredForm(x, q, y, w, z) + e == StoredForm(x, q, y, w, z + e)
    ensures Whole(RequireFirst(x, q, y, w, z)) + e == Whole(RequireFirst(x, q, y, w, z + e))
  {
    hide VERSION, REQUIRE;
    var v := [(VERSION, Some(w))];
    Assoc(x + [(REQUIRE, q)] + y + v, z, e);
    Assoc(x + y + v + [(REQUIRE, None)], z, e);
    if q.Some? { Assoc(x + [(REQUIRE, if q.value == "" then None else q)] + y + v, z, e); }
  }

  lemma {:induction false} StoredRequireFirst(x: Dict, q: Option<string>, y: Dict, w: string, z: Dict)
    requires ShapeOk(RequireFirst(x, q, y, w, z)) && Unique(Whole(RequireFirst(x, q, y, w, z)))
    ensures StoreAll([], Whole(RequireFirst(x, q, y, w, z))) == StoredForm(x, q, y, w, z)
  {
    hide VERSION, REQUIRE, StoreAll, Unique, Has, StoredForm;
    assert forall i :: 0 <= i < |z| ==> z[i].1.Some? && z[i].0 != VERSION;
    hide Others;
    var p, v := x + [(REQUIRE, q)] + y, [(VERSION, Some(w))];
    StoredFormUnique(x, q, y, w, z);
    StoredFormBehind(x, q, y, w, [], z);
    assert [] + z == z;
    Assoc(p, v, z);
    UniquePrefix(p, v + z);
    UniquePrefix(x + y, z);
    StoredUpToVersion(x, q, y, w);
    StoreAllConcat([], p + v, z);
    StoreAppends(StoredForm(x, q, y, w, []), z);
  }

  lemma {:induction false} RereadMore(x: Dict, q: Option<string>, y: Dict, w: string, z: Dict)
    requires ShapeOk(RequireFirst(x, q, y, w, z)) && Unique(Whole(RequireFirst(x, q, y, w, z))) && z != []
    ensures Reread(Whole(RequireFirst(x, q, y, w, z))) == StoredForm(x, q, y, w, z)
  {
    Names();
    var init, k, v := SplitLast(z);
    var b0, f0 := Whole(RequireFirst(x, q, y, w, init)), StoredForm(x, q, y, w, init);
    assert Others(init);
    assert forall i :: 0 <= i < |b0| ==> b0[i].0 != "";
    assert (k, v) == z[|z| - 1];
    StoredFormBehind(x, q, y, w, init, [(k, v)]);
    StoredFormUnique(x, q, y, w, z);
    hide VERSION, REQUIRE, StoreAll, Reread, Unique, StoredForm, Whole, Has;
    UniquePrefix(b0, [(k, v)]);
    StoredRequireFirst(x, q, y, w, init);
    RereadStored(b0, f0, k, v);
    StoredFormHas(x, q, y, w, z);
  }

  lemma {:induction false} StoredFormHas(x: Dict, q: Option<string>, y: Dict, w: string, z: Dict)
    ensures Has(StoredForm(x, q, y, w, z), REQUIRE)
  {
    var f := StoredForm(x, q, y, w, z);
    if q.None? {
      assert f[|x| + |y| + 1] == (REQUIRE, None);
    } else {
      assert f[|x|].0 == REQUIRE;
    }
  }

  lemma {:induction false} RereadLastVersion(x: Dict, q: Option<string>, y: Dict, w: string)
    requires Others(x) && Others(y) && Unique(x + [(REQUIRE, q)] + y + [(VERSION, Some(w))]) && Unique(x + y)
    ensures var b := x + [(REQUIRE, q)] + y + [(VERSION, Some(w))];
            Reread(b) == if q == Some("") then b else StoredForm(x, q, y, w, [])
  {
    Names();
    OthersLack(x);
    OthersLack(y);
    var p := x + [(REQUIRE, q)] + y;
    assert forall i :: 0 <= i < |p| ==> p[i].0 != "";
    hide VERSION, REQUIRE, StoreAll, Reread, Others, Has, Put, Lookup;
    UniquePrefix(p, [(VERSION, Some(w))]);
    StoredUpToVersion(x, q, y, w);
    RereadSnoc(p, VERSION, Some(w));
    HasConcat(x, y, VERSION);
    HasConcat(x, y, REQUIRE);
    if q.None? {
      PutNew(x + y, VERSION, Some(w));
      HasSnoc(x + y, VERSION, Some(w), REQUIRE);
      PutNew(x + y + [(VERSION, Some(w))], REQUIRE, None);
    } else {
      HasSnoc(x, REQUIRE, q, VERSION);
      HasConcat(x + [(REQUIRE, q)], y, VERSION);
      PutNew(p, VERSION, Some(w));
      HasSnoc(x, REQUIRE, q, REQUIRE);
      HasConcat(x + [(REQUIRE, q)], y, REQUIRE);
      HasSnoc(p, VERSION, Some(w), REQUIRE);
    }
    var f := StoredForm(x, q, y, w, []);
    assert q.None? ==> f == x + y + [(VERSION, Some(w))] + [(REQUIRE, None)];
    assert q.Some? && q.value != "" ==> f == p + [(VERSION, Some(w))];
  }

  /** What is read back: the last attribute does not unset an empty Require. */
  lemma {:induction false} RereadRequireFirst(x: Dict, q: Option<string>, y: Dict, w: string, z: Dict)
    requires ShapeOk(RequireFirst(x, q, y, w, z)) && Unique(Whole(RequireFirst(x, q, y, w, z)))
    ensures Reread(Whole(RequireFirst(x, q, y, w, z))) ==
            if q == Some("") && z == [] then Whole(RequireFirst(x, q, y, w, z)) else StoredForm(x, q, y, w, z)
  {
    if z == [] {
      hide VERSION, REQUIRE, Reread, Unique, StoredForm, Others;
      StoredFormUnique(x, q, y, w, z);
      assert x + y + z == x + y;
      var b := x + [(REQUIRE, q)] + y + [(VERSION, Some(w))];
      assert Whole(RequireFirst(x, q, y, w, z)) == b;
      RereadLastVersion(x, q, y, w);
    } else {
      RereadMore(x, q, y, w, z);
    }
  }

  // ----- Exactly which attributes are read back -----

  /** Names are not empty, and only Require can be unset. */
  ghost predicate Named(b: Dict) {
    forall i :: 0 <= i < |b| ==> b[i].0 != "" && (b[i].1.None? ==> b[i].0 == REQUIRE)
  }

  lemma {:induction false} ShapeAtVersion(b: Dict) returns (s: Shape)
    requires Unique(b) && Named(b) && |b| >= 2 && b[0].0 == VERSION && b[1].0 == REQUIRE
    ensures ShapeOk(s) && Whole(s) == b
  {
    Names();
    hide VERSION, REQUIRE;
    var y := b[2..];
    assert forall i :: 0 <= i < |y| ==> y[i] == b[i + 2];
    assert b[0] == (VERSION, b[0].1) && b[1] == (REQUIRE, b[1].1);
    s := VersionFirst([], b[0].1.value, b[1].1, y);
    assert b == [b[0]] + [b[1]] + y;
  }

  /** A stretch of the attributes that has neither Version nor Require. */
  lemma {:induction false} OthersBetween(b: Dict, i: nat, j: nat)
    requires Named(b) && i <= j <= |b|
    requires forall k :: i <= k < j ==> b[k].0 != VERSION && b[k].0 != REQUIRE
    ensures Others(b[i..j])
  {
    hide VERSION, REQUIRE;
    assert forall k :: 0 <= k < j - i ==> b[i..j][k] == b[i + k];
  }

  lemma {:induction false} CutAt(b: Dict, j: nat)
    requires 0 < j < |b|
    ensures b == [b[0]] + b[1..j] + [b[j]] + b[j + 1..]
  {
  }

  lemma {:induction false} ShapeAtRequire(b: Dict) returns (s: Shape)
    requires Unique(b) && Named(b) && b != [] && b[0].0 == REQUIRE && Placed(b, false)
    ensures ShapeOk(s) && Whole(s) == b
  {
    Names();
    hide VERSION, REQUIRE, Others;
    assert b[0] == (REQUIRE, b[0].1);
    var x: Dict := [];
    assert Others(x) by { OthersBetween(b, 0, 0); }
    if j :| 0 < j < |b| && b[j].0 == VERSION {
      OthersBetween(b, 1, j);
      OthersBetween(b, j + 1, |b|);
      CutAt(b, j);
      assert b[j + 1..|b|] == b[j + 1..] && b[j] == (VERSION, b[j].1);
      s := RequireFirst(x, b[0].1, b[1..j], b[j].1.value, b[j + 1..]);
      assert x + [b[0]] == [b[0]];
    } else {
      OthersBetween(b, 1, |b|);
      assert b[1..|b|] == b[1..] && b == [b[0]] + b[1..];
      s := NoVersion(x, b[0].1, b[1..]);
      assert x + [b[0]] == [b[0]];
      assert !Has(b[1..], VERSION);
    }
  }

  /** The shape of the attributes of a parsed package. */
  lemma {:induction false} ShapeOf(b: Dict) returns (s: Shape)
    requires Unique(b) && Named(b) && Placed(b, false)
    ensures ShapeOk(s) && Whole(s) == b
  {
    Names();
    hide VERSION, REQUIRE, Whole;
    if b[0].0 == VERSION {
      s := ShapeAtVersion(b);
    } else if b[0].0 == REQUIRE {
      s := ShapeAtRequire(b);
    } else {
      var rest := b[1..];
      assert b == [b[0]] + rest;
      var s1 := ShapeOf(rest);
      s := Prepended(b[0], s1);
      PrependedWhole(b[0], s1);
    }
  }

  function Prepended(a: (string, Option<string>), s: Shape): Shape {
    match s
    case NoVersion(x, q, y) => NoVersion([a] + x, q, y)
    case VersionFirst(x, w, q, y) => VersionFirst([a] + x, w, q, y)
    case RequireFirst(x, q, y, w, z) => RequireFirst([a] + x, q, y, w, z)
  }

  lemma {:induction false} PrependedWhole(a: (string, Option<string>), s: Shape)
    ensures Whole(Prepended(a, s)) == [a] + Whole(s)
  {
    hide VERSION, REQUIRE;
    match s
    case NoVersion(x, q, y) =>
      Assoc([a], x, [(REQUIRE, q)]);
      Assoc([a], x + [(REQUIRE, q)], y);
    case VersionFirst(x, w, q, y) =>
      var xv := x + [(VERSION, Some(w))];
      Assoc([a], x, [(VERSION, Some(w))]);
      Assoc([a], xv, [(REQUIRE, q)]);
      Assoc([a], xv + [(REQUIRE, q)], y);
    case RequireFirst(x, q, y, w, z) =>
      var p := x + [(REQUIRE, q)] + y;
      Assoc([a], x, [(REQUIRE, q)]);
      Assoc([a], x + [(REQUIRE, q)], y);
      Assoc([a], p, [(VERSION, Some(w))]);
      Assoc([a], p + [(VERSION, Some(w))], z);
  }

  /** Whether Require is kept, by shape. */
  lemma {:induction false} KeptByShape(s: Shape)
    requires ShapeOk(s)
    ensures RequireKept(Whole(s)) <==> (s.RequireFirst? ==> s.q.Some? && (s.q.value != "" || s.z == []))
  {
    Names();
    hide VERSION, REQUIRE;
    var b := Whole(s);
    match s
    case NoVersion(x, q, y) =>
      assert forall i :: 0 <= i < |b| ==> b[i].0 != VERSION;
    case VersionFirst(x, w, q, y) =>
      assert forall i :: 0 <= i < |b| && b[i].0 == VERSION ==> i == |x|;
      assert forall i :: 0 <= i < |b| && b[i].0 == REQUIRE ==> i == |x| + 1;
    case RequireFirst(x, q, y, w, z) =>
      var r, v := |x|, |x| + 1 + |y|;
      assert b[r] == (REQUIRE, q) && b[v] == (VERSION, Some(w));
      assert forall i :: 0 <= i < |b| && b[i].0 == VERSION ==> i == v;
      assert forall i :: 0 <= i < |b| && b[i].0 == REQUIRE ==> i == r;
  }

  /** The stored form of an unset or empty Require is another dictionary. */
  lemma {:induction false} StoredFormDiffers(x: Dict, q: Option<string>, y: Dict, w: string, z: Dict)
    requires ShapeOk(RequireFirst(x, q, y, w, z))
    ensures StoredForm(x, q, y, w, z) == Whole(RequireFirst(x, q, y, w, z)) <==> q.Some? && q.value != ""
  {
    Names();
    hide VERSION, REQUIRE;
    var f, b := StoredForm(x, q, y, w, z), Whole(RequireFirst(x, q, y, w, z));
    assert b[|x|] == (REQUIRE, q);
    if q.None? {
      assert f[|x|] == if y == [] then (VERSION, Some(w)) else y[0];
    } else {
      assert f[|x|] == (REQUIRE, if q.value == "" then None else q);
    }
  }

  /** The attributes of a parsed package are read back unchanged exactly when Require is kept. */
  lemma {:induction false} RereadExactly(b: Dict)
    requires Unique(b) && Named(b) && Placed(b, false)
    ensures Reread(b) == b <==> RequireKept(b)
  {
    var s := ShapeOf(b);
    hide VERSION, REQUIRE, Reread, Unique, Whole, StoredForm, ShapeOk, RequireKept;
    KeptByShape(s);
    match s
    case NoVersion(x, q, y) => RereadNoVersion(x, q, y);
    case VersionFirst(x, w, q, y) => RereadVersionFirst(x, w, q, y);
    case RequireFirst(x, q, y, w, z) =>
      RereadRequireFirst(x, q, y, w, z);
      StoredFormDiffers(x, q, y, w, z);
  }
}
