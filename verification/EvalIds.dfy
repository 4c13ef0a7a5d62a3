/** The sources of evaluated code: every one is registered under its place and under its id in
    the same hash table, and counts the entries that point at it. */
module EvalIds {
  import opened Wrappers
  import opened Subsequences
  import opened Numbers
  import opened HashSpec
  import H = HashTables

  // ---------- The two kinds of key ----------

  const SUFFIX := ") : eval()'d code"

  /** `%s(%d) : eval()'d code`. */
  function FileKey(file: string, line: nat): string {
    file + ['('] + Decimal(line) + SUFFIX
  }

  function HexDigit(d: nat): (c: char)
    requires d < 16
    ensures IsHex(c) && HexDigitValue(c) == d
  {
    if d < 10 then ('0' as nat + d) as char else ('a' as nat + d - 10) as char
  }

  predicate IsHex(c: char) {
    '0' <= c <= '9' || 'a' <= c <= 'f'
  }

  function HexDigitValue(c: char): nat {
    if '0' <= c <= '9' then c as nat - '0' as nat else if 'a' <= c <= 'f' then c as nat - 'a' as nat + 10 else 0
  }

  function Hex(n: nat): (s: string)
    ensures forall i :: 0 <= i < |s| ==> IsHex(s[i])
  {
    if n < 16 then [HexDigit(n)] else Hex(n / 16) + [HexDigit(n % 16)]
  }

  function Padded(s: string, width: nat): (r: string)
    ensures (forall i :: 0 <= i < |s| ==> IsHex(s[i])) ==> forall i :: 0 <= i < |r| ==> IsHex(r[i])
    decreases width - |s|
  {
    if |s| >= width then s else Padded(['0'] + s, width)
  }

  /** `%04x`. */
  function IdKey(id: nat): (s: string)
    ensures forall i :: 0 <= i < |s| ==> IsHex(s[i])
  {
    Padded(Hex(id), 4)
  }

  function HexValue(s: string): nat {
    if s == [] then 0 else 16 * HexValue(Front(s)) + HexDigitValue(Last(s))
  }

  lemma {:induction false} HexValueOf(n: nat)
    ensures HexValue(Hex(n)) == n
  {
    var s := Hex(n);
    if n < 16 {
      assert Front(s) == [] && Last(s) == HexDigit(n);
    } else {
      HexValueOf(n / 16);
      assert Front(s) == Hex(n / 16) && Last(s) == HexDigit(n % 16);
    }
  }

  lemma {:induction false} LeadingZero(s: string)
    ensures HexValue(['0'] + s) == HexValue(s)
  {
    var z := ['0'] + s;
    if s == [] {
      assert Front(z) == [];
    } else {
      assert Front(z) == ['0'] + Front(s);
      LeadingZero(Front(s));
    }
  }

  lemma {:induction false} PaddedValue(s: string, width: nat)
    ensures HexValue(Padded(s, width)) == HexValue(s)
    decreases width - |s|
  {
    if |s| < width {
      PaddedValue(['0'] + s, width);
      LeadingZero(s);
    }
  }

  lemma {:induction false} PaddedShape(s: string, width: nat)
    ensures |Padded(s, width)| == if |s| < width then width else |s|
    decreases width - |s|
  {
    if |s| < width {
      PaddedShape(['0'] + s, width);
    }
  }

  lemma {:induction false} HexHasNoLeadingZero(n: nat)
    ensures Hex(n) != [] && (n > 0 ==> Hex(n)[0] != '0')
  {
    if n >= 16 {
      HexHasNoLeadingZero(n / 16);
    }
  }

  /** The key of an id is the id in hexadecimal digits, at least four of them, with leading zeros
      only where there would be fewer. */
  lemma IdKeyIsHex(id: nat)
    requires id > 0
    ensures HexValue(IdKey(id)) == id && |IdKey(id)| >= 4 && (|IdKey(id)| > 4 ==> IdKey(id)[0] != '0')
  {
    PaddedValue(Hex(id), 4);
    HexValueOf(id);
    PaddedShape(Hex(id), 4);
    HexHasNoLeadingZero(id);
  }

  /** Different ids have different keys. */
  lemma IdKeyInjective(a: nat, b: nat)
    requires IdKey(a) == IdKey(b)
    ensures a == b
  {
    PaddedValue(Hex(a), 4);
    PaddedValue(Hex(b), 4);
    HexValueOf(a);
    HexValueOf(b);
  }

  /** No id has the key of a place. */
  lemma KeysDiffer(file: string, line: nat, id: nat)
    ensures FileKey(file, line) != IdKey(id)
  {
    var k := FileKey(file, line);
    assert k[|file|] == '(' && !IsHex(k[|file|]);
  }

  /** Different places have different keys. */
  lemma FileKeyInjective(f: string, n: nat, g: string, m: nat)
    requires FileKey(f, n) == FileKey(g, m)
    ensures f == g && n == m
  {
    var a, b := f + ['('] + Decimal(n), g + ['('] + Decimal(m);
    SuffixCancels(a, b, SUFFIX);
    DigitsCancel(f, Decimal(n), g, Decimal(m));
    DecimalValue(n);
    DecimalValue(m);
  }

  lemma SuffixCancels(a: string, b: string, s: string)
    requires a + s == b + s
    ensures a == b
  {
    assert |a| == |b|;
    assert a == (a + s)[..|a|] && b == (b + s)[..|b|];
  }

  lemma ParenAt(f: string, d: string)
    requires forall i :: 0 <= i < |d| ==> Escapes.IsDigit(d[i])
    ensures forall i :: |f| < i < |f| + 1 + |d| ==> (f + ['('] + d)[i] != '('
  {
    var a := f + ['('] + d;
    forall i | |f| < i < |a| ensures a[i] != '(' {
      assert a[i] == d[i - |f| - 1];
    }
  }

  lemma DigitsCancel(f: string, d: string, g: string, e: string)
    requires f + ['('] + d == g + ['('] + e
    requires forall i :: 0 <= i < |d| ==> Escapes.IsDigit(d[i])
    requires forall i :: 0 <= i < |e| ==> Escapes.IsDigit(e[i])
    ensures f == g && d == e
  {
    var a, b := f + ['('] + d, g + ['('] + e;
    ParenAt(f, d);
    ParenAt(g, e);
    assert a[|f|] == '(' && b[|g|] == '(';
    assert |f| == |g|;
    assert f == a[..|f|] && g == b[..|g|] && d == a[|f| + 1..] && e == b[|g| + 1..];
  }

  // ---------- Registering ----------

  /** A registration: the key of its place, and the source. */
  datatype Reg = Reg(place: Key, contents: string)

  type IdKeys = nat -> Key

  const SLOTS := 64

  /** A registration stores its record, known by its id, under both keys. */
  function OpsOf(regs: seq<Reg>, ik: IdKeys): seq<Op<int>> {
    if regs == [] then []
    else OpsOf(Front(regs), ik) + [Add(Last(regs).place, |regs|)] + [Add(ik(|regs|), |regs|)]
  }

  function TableAfter(hash: Hash, regs: seq<Reg>, ik: IdKeys): (t: Table<int>)
    ensures |t.slots| == SLOTS
  {
    Run(SLOTS, hash, OpsOf(regs, ik))
  }

  /** The last registration at a place, or 0. */
  function LastAt(regs: seq<Reg>, place: Key): (id: nat)
    ensures id <= |regs|
  {
    if regs == [] then 0 else if Last(regs).place == place then |regs| else LastAt(Front(regs), place)
  }

  /** Different ids have different keys, and no place has the key of an id. */
  ghost predicate Apart(regs: seq<Reg>, ik: IdKeys) {
    (forall a: nat, b: nat :: ik(a) == ik(b) ==> a == b) && forall r :: r in regs ==> NoId(r.place, ik)
  }

  ghost predicate NoId(k: Key, ik: IdKeys) {
    forall a: nat :: k != ik(a)
  }

  lemma AddNext(o: seq<Op<int>>, key: Key, id: int)
    ensures MapAfter(o + [Add(key, id)]) == MapAfter(o)[key := id]
    ensures Stored(o + [Add(key, id)]) == Stored(o) + multiset{id}
  {
    assert Front(o + [Add(key, id)]) == o;
  }

  lemma OpsNext(regs: seq<Reg>, ik: IdKeys)
    requires regs != []
    ensures var n := |regs|;
            MapAfter(OpsOf(regs, ik)) == MapAfter(OpsOf(Front(regs), ik))[Last(regs).place := n][ik(n) := n]
    ensures Stored(OpsOf(regs, ik)) == Stored(OpsOf(Front(regs), ik)) + multiset{|regs|} + multiset{|regs|}
  {
    var o, k := OpsOf(Front(regs), ik), Last(regs).place;
    AddNext(o, k, |regs|);
    AddNext(o + [Add(k, |regs|)], ik(|regs|), |regs|);
  }

  lemma FrontApart(regs: seq<Reg>, ik: IdKeys)
    requires regs != [] && Apart(regs, ik)
    ensures Apart(Front(regs), ik) && NoId(Last(regs).place, ik)
  {
    assert Last(regs) in regs && forall r :: r in Front(regs) ==> r in regs;
  }

  /** Each id so far leads to its own record, and each place to the latest one registered there. */
  lemma {:induction false} MapHolds(regs: seq<Reg>, ik: IdKeys)
    requires Apart(regs, ik)
    ensures var m := MapAfter(OpsOf(regs, ik));
            forall a: nat :: if 1 <= a <= |regs| then ik(a) in m && m[ik(a)] == a else ik(a) !in m
    ensures var m := MapAfter(OpsOf(regs, ik));
            forall k :: NoId(k, ik) ==>
              if LastAt(regs, k) == 0 then k !in m else k in m && m[k] == LastAt(regs, k)
  {
    if regs != [] {
      FrontApart(regs, ik);
      MapHolds(Front(regs), ik);
      OpsNext(regs, ik);
    }
  }

  lemma {:induction false} StoredTwice(regs: seq<Reg>, ik: IdKeys, id: int)
    ensures Stored(OpsOf(regs, ik))[id] == if 1 <= id <= |regs| then 2 else 0
  {
    if regs != [] {
      StoredTwice(Front(regs), ik, id);
      OpsNext(regs, ik);
    }
  }

  /** The registrations are made at places in files. */
  ghost predicate AtPlaces(regs: seq<Reg>) {
    forall r :: r in regs ==> IsPlace(r.place)
  }

  ghost predicate IsPlace(k: Key) {
    exists file: string, line: nat :: k == Str(FileKey(file, line))
  }

  function EvalIdKey(id: nat): Key {
    Str(IdKey(id))
  }

  lemma PlacesAreApart(regs: seq<Reg>)
    requires AtPlaces(regs)
    ensures Apart(regs, EvalIdKey)
  {
    forall a: nat, b: nat ensures EvalIdKey(a) == EvalIdKey(b) ==> a == b {
      if EvalIdKey(a) == EvalIdKey(b) {
        IdKeyInjective(a, b);
      }
    }
    forall r | r in regs ensures NoId(r.place, EvalIdKey) {
      var file: string, line: nat :| r.place == Str(FileKey(file, line));
      forall a: nat ensures r.place != EvalIdKey(a) {
        KeysDiffer(file, line, a);
      }
    }
  }

  // ---------- Reference counts ----------

  /** A record starts at 2 and loses one each time the table's destructor is given it. */
  function RefCount(t: Table<int>, id: int): int {
    var drops: int := multiset(t.destroyed)[id];
    2 - drops
  }

  lemma {:induction false} HeldMember(slots: seq<seq<Entry<int>>>, s: nat, i: nat)
    requires s < |slots| && i < |slots[s]|
    ensures slots[s][i].value in Held(slots)
  {
    if s == |slots| - 1 {
      assert ValuesOf(slots[s])[i] in multiset(ValuesOf(slots[s]));
    } else {
      HeldMember(Front(slots), s, i);
    }
  }

  lemma {:induction false} FoundIsHeld(t: Table<int>, hash: Hash, key: Key)
    requires t.slots != [] && Find(t, hash, key).Some?
    ensures Find(t, hash, key).value in Held(t.slots)
  {
    var s := SlotOf(hash, key, |t.slots|);
    HeldMember(t.slots, s, IndexOf(t.slots[s], key));
  }

  lemma IdFinds(hash: Hash, regs: seq<Reg>, ik: IdKeys, id: nat)
    requires Apart(regs, ik)
    ensures Find(TableAfter(hash, regs, ik), hash, ik(id)) == if 1 <= id <= |regs| then Some(id) else None
  {
    RefinesMap(SLOTS, hash, OpsOf(regs, ik));
    MapHolds(regs, ik);
  }

  /** After any registrations, an id finds its own record if it has been given out, even when its
      place has been registered again, and nothing otherwise. */
  lemma EveryIdFindsItsRecord(hash: Hash, regs: seq<Reg>, id: nat)
    requires AtPlaces(regs)
    ensures Find(TableAfter(hash, regs, EvalIdKey), hash, Str(IdKey(id)))
         == if 1 <= id <= |regs| then Some(id) else None
  {
    PlacesAreApart(regs);
    IdFinds(hash, regs, EvalIdKey, id);
    assert EvalIdKey(id) == Str(IdKey(id));
  }

  /** A place finds the latest record registered for it. */
  lemma EveryPlaceFindsTheLatest(hash: Hash, regs: seq<Reg>, file: string, line: nat)
    requires AtPlaces(regs)
    ensures var k := Str(FileKey(file, line));
            Find(TableAfter(hash, regs, EvalIdKey), hash, k)
            == if LastAt(regs, k) == 0 then None else Some(LastAt(regs, k))
  {
    PlacesAreApart(regs);
    RefinesMap(SLOTS, hash, OpsOf(regs, EvalIdKey));
    MapHolds(regs, EvalIdKey);
    forall a: nat ensures Str(FileKey(file, line)) != EvalIdKey(a) {
      KeysDiffer(file, line, a);
    }
  }

  lemma CountAt(d: multiset<int>, h: multiset<int>, all: multiset<int>, id: int)
    requires d + h == all
    ensures all[id] == d[id] + h[id]
  {
  }

  /** The count of a record is the number of table entries that point at it. */
  lemma CountIsEntries(hash: Hash, regs: seq<Reg>, ik: IdKeys, id: int)
    requires 1 <= id <= |regs|
    ensures var t := TableAfter(hash, regs, ik); RefCount(t, id) == Held(t.slots)[id]
  {
    var t := TableAfter(hash, regs, ik);
    RefinesMap(SLOTS, hash, OpsOf(regs, ik));
    StoredTwice(regs, ik, id);
    CountAt(multiset(t.destroyed), Held(t.slots), Stored(OpsOf(regs, ik)), id);
  }

  /** However often places are registered again, no record is released before the end. */
  lemma NeverReleasedEarly(hash: Hash, regs: seq<Reg>, id: int)
    requires 1 <= id <= |regs| && AtPlaces(regs)
    ensures RefCount(TableAfter(hash, regs, EvalIdKey), id) >= 1
  {
    EveryIdFindsItsRecord(hash, regs, id);
    CountIsEntries(hash, regs, EvalIdKey, id);
    FoundIsHeld(TableAfter(hash, regs, EvalIdKey), hash, Str(IdKey(id)));
  }

  /** What one more entry destroys: the value the key had. */
  lemma DestroyedNext(hash: Hash, o: seq<Op<int>>, key: Key, id: int)
    ensures var m, t := MapAfter(o), Run(SLOTS, hash, o);
            Run(SLOTS, hash, o + [Add(key, id)]).destroyed == t.destroyed + if key in m then [m[key]] else []
  {
    RefinesMap(SLOTS, hash, o);
    RunNext(hash, o, key, id);
    AddLoses(Run(SLOTS, hash, o), hash, key, id);
  }

  lemma AddLoses(t: Table<int>, hash: Hash, key: Key, id: int)
    requires t.slots != []
    ensures var found := Find(t, hash, key);
            AddOrUpdate(t, hash, key, id).destroyed == t.destroyed + if found.Some? then [found.value] else []
  {
  }

  /** The records that registrations have replaced at their places, in order. */
  function Replaced(regs: seq<Reg>): seq<int> {
    if regs == [] then []
    else
      var was := LastAt(Front(regs), Last(regs).place);
      Replaced(Front(regs)) + if was == 0 then [] else [was]
  }

  lemma {:induction false} DestroyedAreReplaced(hash: Hash, regs: seq<Reg>, ik: IdKeys)
    requires Apart(regs, ik)
    ensures TableAfter(hash, regs, ik).destroyed == Replaced(regs)
  {
    if regs != [] {
      FrontApart(regs, ik);
      DestroyedAreReplaced(hash, Front(regs), ik);
      RegistrationDestroys(hash, regs, ik);
    }
  }

  lemma RegistrationDestroys(hash: Hash, regs: seq<Reg>, ik: IdKeys)
    requires regs != [] && Apart(regs, ik)
    ensures var was := LastAt(Front(regs), Last(regs).place);
            TableAfter(hash, regs, ik).destroyed
            == TableAfter(hash, Front(regs), ik).destroyed + if was == 0 then [] else [was]
  {
    var o, k, id := OpsOf(Front(regs), ik), Last(regs).place, |regs|;
    FrontApart(regs, ik);
    MapHolds(Front(regs), ik);
    DestroyedNext(hash, o, k, id);
    AddNext(o, k, id);
    DestroyedNext(hash, o + [Add(k, id)], ik(id), id);
  }

  lemma {:induction false} LastAtPlace(regs: seq<Reg>, place: Key)
    ensures var k := LastAt(regs, place); k > 0 ==> regs[k - 1].place == place
  {
    if regs != [] && Last(regs).place != place {
      LastAtPlace(Front(regs), place);
    }
  }

  lemma OneMore(d: seq<int>, was: int, id: int)
    ensures multiset(d + if was == 0 then [] else [was])[id] == multiset(d)[id] + if was == id && id != 0 then 1 else 0
  {
    assert multiset(d + [was]) == multiset(d) + multiset{was};
    assert d + [] == d;
  }

  lemma {:induction false} NotYetReplaced(regs: seq<Reg>, id: int)
    requires id > |regs|
    ensures multiset(Replaced(regs))[id] == 0
  {
    if regs != [] {
      NotYetReplaced(Front(regs), id);
      OneMore(Replaced(Front(regs)), LastAt(Front(regs), Last(regs).place), id);
    }
  }

  lemma {:induction false} TimesReplaced(regs: seq<Reg>, id: int)
    requires 1 <= id <= |regs|
    ensures multiset(Replaced(regs))[id] == if LastAt(regs, regs[id - 1].place) == id then 0 else 1
  {
    var f, last := Front(regs), Last(regs);
    OneMore(Replaced(f), LastAt(f, last.place), id);
    if id < |regs| {
      TimesReplaced(f, id);
      LastAtPlace(f, last.place);
      assert f[id - 1] == regs[id - 1];
    } else {
      NotYetReplaced(f, id);
    }
  }

  /** A record keeps both its entries until its place is registered again, and one from then on. */
  lemma CountIs(hash: Hash, regs: seq<Reg>, ik: IdKeys, id: int)
    requires Apart(regs, ik) && 1 <= id <= |regs|
    ensures RefCount(TableAfter(hash, regs, ik), id) == if LastAt(regs, regs[id - 1].place) == id then 2 else 1
  {
    DestroyedAreReplaced(hash, regs, ik);
    TimesReplaced(regs, id);
  }

  /** When the table goes, every record is released: its count reaches zero exactly once, at the end. */
  lemma ReleasedAtTheEnd(hash: Hash, regs: seq<Reg>, id: int)
    requires 1 <= id <= |regs| && AtPlaces(regs)
    ensures var t := TableAfter(hash, regs, EvalIdKey);
            multiset(t.destroyed)[id] < 2 && multiset(t.destroyed + Drained(t.slots))[id] == 2
  {
    NeverReleasedEarly(hash, regs, id);
    DestroyAccountsForAll(SLOTS, hash, OpsOf(regs, EvalIdKey));
    StoredTwice(regs, EvalIdKey, id);
  }

  // ---------- The records ----------

  datatype Info = Info(contents: string, refcount: int, released: bool)

  /** The destructor: one reference less, and released at zero. */
  function Dropped(i: Info): Info {
    Info(i.contents, i.refcount - 1, i.released || i.refcount == 1)
  }

  /** A record that has been given to the destructor this often. */
  function InfoAfter(contents: string, drops: int): Info {
    Info(contents, 2 - drops, drops >= 2)
  }

  /** The records, by id from 1, are as the destroyed ids say. */
  ghost predicate Accounted(infos: seq<Info>, regs: seq<Reg>, destroyed: seq<int>) {
    |infos| == |regs| && (infos == [] || (
      && Accounted(Front(infos), Front(regs), destroyed)
      && Last(infos) == InfoAfter(Last(regs).contents, multiset(destroyed)[|infos|])))
  }

  lemma {:induction false} AccountedAt(infos: seq<Info>, regs: seq<Reg>, destroyed: seq<int>, id: int)
    requires Accounted(infos, regs, destroyed) && 1 <= id <= |infos|
    ensures infos[id - 1] == InfoAfter(regs[id - 1].contents, multiset(destroyed)[id])
  {
    if id < |infos| {
      AccountedAt(Front(infos), Front(regs), destroyed, id);
    }
  }

  lemma OneMoreDrop(destroyed: seq<int>, d: int, id: int)
    ensures multiset(destroyed + [d])[id] == multiset(destroyed)[id] + if d == id then 1 else 0
  {
    assert multiset(destroyed + [d]) == multiset(destroyed) + multiset{d};
  }

  /** A destroyed id that belongs to a later record changes nothing. */
  lemma {:induction false} DropBeyond(infos: seq<Info>, regs: seq<Reg>, destroyed: seq<int>, d: int)
    requires Accounted(infos, regs, destroyed) && d > |infos|
    ensures Accounted(infos, regs, destroyed + [d])
  {
    if infos != [] {
      OneMoreDrop(destroyed, d, |infos|);
      DropBeyond(Front(infos), Front(regs), destroyed, d);
    }
  }

  /** Dropping the record that has been destroyed once more keeps the account. */
  lemma {:induction false} DropAccounts(infos: seq<Info>, regs: seq<Reg>, destroyed: seq<int>, d: int)
    requires Accounted(infos, regs, destroyed) && 1 <= d <= |infos|
    ensures Accounted(infos[d - 1 := Dropped(infos[d - 1])], regs, destroyed + [d])
  {
    var next := infos[d - 1 := Dropped(infos[d - 1])];
    OneMoreDrop(destroyed, d, |infos|);
    if d < |infos| {
      DropAccounts(Front(infos), Front(regs), destroyed, d);
      assert Front(next) == Front(infos)[d - 1 := Dropped(infos[d - 1])];
    } else {
      DropBeyond(Front(infos), Front(regs), destroyed, d);
      assert Front(next) == Front(infos);
    }
  }

  /** A new record has not been given to the destructor. */
  lemma NewAccounted(infos: seq<Info>, regs: seq<Reg>, reg: Reg)
    requires Accounted(infos, regs, Replaced(regs))
    ensures Accounted(infos + [Info(reg.contents, 2, false)], regs + [reg], Replaced(regs))
  {
    NotYetReplaced(regs, |regs| + 1);
    assert Front(infos + [Info(reg.contents, 2, false)]) == infos && Front(regs + [reg]) == regs;
  }

  // ---------- The context as the handlers change it ----------

  class Context {
    const lookup: H.HashTable<int>
    var sequence: nat
    var infos: seq<Info>
    ghost var regs: seq<Reg>

    constructor (hash: Hash)
      ensures Valid() && regs == [] && fresh(lookup) && fresh(lookup.Elements())
      ensures forall l :: l in lookup.table ==> fresh(l)
    {
      lookup := new H.HashTable<int>(SLOTS, hash);
      sequence, infos, regs := 0, [], [];
    }

    /** The table holds the registrations, and every record counts the entries it has there. */
    ghost predicate Valid()
      reads this, lookup, lookup.table, lookup.Elements()
    {
      && lookup.Valid() && lookup.View() == TableAfter(lookup.hash, regs, EvalIdKey) && AtPlaces(regs)
      && sequence == |regs| && Accounted(infos, regs, lookup.destroyed)
    }

    /** `xdebug_hash_eval_info_dtor`. */
    method InfoDtor(id: int)
      requires 1 <= id <= |infos|
      modifies `infos
      ensures infos == old(infos)[id - 1 := Dropped(old(infos)[id - 1])]
    {
      var i := infos[id - 1];
      i := i.(refcount := i.refcount - 1);
      if i.refcount == 0 {
        i := i.(released := true);
      }
      infos := infos[id - 1 := i];
    }

    /** Adds an entry; if it replaces one, the destructor is given that record. */
    method StoreEntry(key: Key, id: int, ghost t: Table<int>, ghost all: seq<Reg>, ghost lost: seq<int>)
      requires lookup.Valid() && t == AddOrUpdate(lookup.View(), lookup.hash, key, id)
      requires t.destroyed == lookup.destroyed + lost && (lost == [] || (|lost| == 1 && 1 <= lost[0] <= |infos|))
      requires Accounted(infos, all, lookup.destroyed)
      modifies `infos, lookup, lookup.table, lookup.Elements()
      ensures lookup.Valid() && lookup.View() == t
      ensures Accounted(infos, all, t.destroyed) && fresh(lookup.Elements() - old(lookup.Elements()))
    {
      var before := |lookup.destroyed|;
      lookup.AddOrUpdateKey(key, id);
      DropReplaced(before, old(lookup.destroyed), lost, all);
    }

    /** If the table has destroyed one more value, the destructor is given that record. */
    method DropReplaced(before: nat, ghost d: seq<int>, ghost lost: seq<int>, ghost all: seq<Reg>)
      requires lookup.destroyed == d + lost && before == |d| && Accounted(infos, all, d)
      requires lost == [] || (|lost| == 1 && 1 <= lost[0] <= |infos|)
      modifies `infos
      ensures Accounted(infos, all, d + lost)
    {
      if |lookup.destroyed| > before {
        DropAccounts(infos, all, d, lost[0]);
        assert d + lost == d + [lost[0]];
        InfoDtor(lookup.destroyed[before]);
      } else {
        assert d + lost == d;
      }
    }

    method RegisterEvalId(file: string, line: nat, contents: string) returns (id: int)
      requires Valid()
      modifies this, lookup, lookup.table, lookup.Elements()
      ensures Valid() && regs == old(regs) + [Reg(Str(FileKey(file, line)), contents)] && id == |regs|
    {
      var place := Str(FileKey(file, line));
      ghost var all := regs + [Reg(place, contents)];
      assert IsPlace(place);
      PlacesAreApart(all);
      assert Front(all) == regs && Last(all) == Reg(place, contents);
      ghost var t, lost := RegistrationReady(lookup.hash, all, EvalIdKey);
      RecordsReady(lookup.hash, infos, all);
      Enter(place, EvalIdKey(sequence + 1), contents, lookup.View(), t, TableAfter(lookup.hash, all, EvalIdKey),
            all, lost);
      return sequence;
    }

    method NewRecord(contents: string, ghost all: seq<Reg>)
      requires lookup.Valid()
      modifies this
      ensures lookup.Valid() && lookup.View() == old(lookup.View()) && lookup.Elements() == old(lookup.Elements())
      ensures sequence == old(sequence) + 1 && infos == old(infos) + [Info(contents, 2, false)] && regs == all
    {
      sequence := sequence + 1;
      infos := infos + [Info(contents, 2, false)];
      regs := all;
    }

    /** Makes the record, and both its entries. */
    method Enter(place: Key, idKey: Key, contents: string, ghost s: Table<int>, ghost t: Table<int>,
                 ghost u: Table<int>, ghost all: seq<Reg>, ghost lost: seq<int>)
      requires lookup.Valid() && Accounted(infos + [Info(contents, 2, false)], all, s.destroyed)
      requires lookup.View() == s && Leads(s, t, u, lookup.hash, place, idKey, sequence + 1, lost)
      requires lost == [] || lost[0] <= |infos|
      modifies this, lookup, lookup.table, lookup.Elements()
      ensures lookup.Valid() && lookup.View() == u && Accounted(infos, all, lookup.destroyed)
      ensures regs == all && sequence == old(sequence) + 1
    {
      NewRecord(contents, all);
      EnterBoth(place, idKey, sequence, s, t, u, all, lost);
    }

    method EnterBoth(place: Key, idKey: Key, id: int, ghost s: Table<int>, ghost t: Table<int>,
                     ghost u: Table<int>, ghost all: seq<Reg>, ghost lost: seq<int>)
      requires lookup.Valid() && Accounted(infos, all, s.destroyed)
      requires lookup.View() == s && Leads(s, t, u, lookup.hash, place, idKey, id, lost)
      requires lost == [] || lost[0] <= |infos|
      modifies `infos, lookup, lookup.table, lookup.Elements()
      ensures lookup.Valid() && lookup.View() == u && Accounted(infos, all, lookup.destroyed)
    {
      StoreEntry(place, id, t, all, lost);
      assert lookup.destroyed + [] == lookup.destroyed;
      StoreEntry(idKey, id, u, all, []);
    }

    method ReturnEvalSource(id: nat) returns (source: Option<string>)
      requires Valid()
      ensures source == if 1 <= id <= |regs| then Some(regs[id - 1].contents) else None
    {
      PlacesAreApart(regs);
      IdFinds(lookup.hash, regs, EvalIdKey, id);
      var found := lookup.ExtendedFind(EvalIdKey(id));
      if found.None? {
        return None;
      }
      AccountedAt(infos, regs, lookup.destroyed, id);
      return Some(infos[found.value - 1].contents);
    }
  }

  /** The table between the two entries of a registration. */
  function HalfWay(hash: Hash, regs: seq<Reg>, ik: IdKeys): (t: Table<int>)
    requires regs != []
    ensures |t.slots| == SLOTS
  {
    Run(SLOTS, hash, OpsOf(Front(regs), ik) + [Add(Last(regs).place, |regs|)])
  }

  lemma BothEntries(hash: Hash, regs: seq<Reg>, ik: IdKeys)
    requires regs != []
    ensures HalfWay(hash, regs, ik) == AddOrUpdate(TableAfter(hash, Front(regs), ik), hash, Last(regs).place, |regs|)
    ensures TableAfter(hash, regs, ik) == AddOrUpdate(HalfWay(hash, regs, ik), hash, ik(|regs|), |regs|)
  {
    RunNext(hash, OpsOf(Front(regs), ik), Last(regs).place, |regs|);
    RunNext(hash, OpsOf(Front(regs), ik) + [Add(Last(regs).place, |regs|)], ik(|regs|), |regs|);
  }

  lemma RunNext(hash: Hash, o: seq<Op<int>>, key: Key, id: int)
    ensures Run(SLOTS, hash, o + [Add(key, id)]) == AddOrUpdate(Run(SLOTS, hash, o), hash, key, id)
  {
    assert Front(o + [Add(key, id)]) == o;
  }

  /** What the first of its entries destroys; the second destroys nothing. */
  lemma RegistrationLoses(hash: Hash, regs: seq<Reg>, ik: IdKeys) returns (lost: seq<int>)
    requires regs != [] && Apart(regs, ik)
    ensures HalfWay(hash, regs, ik).destroyed == TableAfter(hash, Front(regs), ik).destroyed + lost
    ensures TableAfter(hash, regs, ik).destroyed == TableAfter(hash, Front(regs), ik).destroyed + lost
    ensures lost == [] || (|lost| == 1 && 1 <= lost[0] < |regs|)
  {
    var o, k, n := OpsOf(Front(regs), ik), Last(regs).place, |regs|;
    FrontApart(regs, ik);
    RegistrationDestroys(hash, regs, ik);
    var was := LastAt(Front(regs), k);
    lost := if was == 0 then [] else [was];
    MapHolds(Front(regs), ik);
    DestroyedNext(hash, o, k, n);
  }

  /** The two entries of a registration lead from one table to the next, and replace this much. */
  ghost predicate Leads(s: Table<int>, t: Table<int>, u: Table<int>, hash: Hash, place: Key, idKey: Key, id: int,
                        lost: seq<int>) {
    && s.slots != [] && t.slots != []
    && t == AddOrUpdate(s, hash, place, id) && u == AddOrUpdate(t, hash, idKey, id)
    && t.destroyed == s.destroyed + lost && u.destroyed == s.destroyed + lost
    && (lost == [] || (|lost| == 1 && 1 <= lost[0]))
  }

  lemma RegistrationReady(hash: Hash, regs: seq<Reg>, ik: IdKeys) returns (t: Table<int>, lost: seq<int>)
    requires regs != [] && Apart(regs, ik)
    ensures Leads(TableAfter(hash, Front(regs), ik), t, TableAfter(hash, regs, ik), hash,
                  Last(regs).place, ik(|regs|), |regs|, lost)
    ensures lost == [] || lost[0] < |regs|
  {
    t := HalfWay(hash, regs, ik);
    BothEntries(hash, regs, ik);
    lost := RegistrationLoses(hash, regs, ik);
  }

  lemma RecordsReady(hash: Hash, infos: seq<Info>, regs: seq<Reg>)
    requires regs != [] && AtPlaces(regs)
    requires Accounted(infos, Front(regs), TableAfter(hash, Front(regs), EvalIdKey).destroyed)
    ensures Accounted(infos + [Info(Last(regs).contents, 2, false)], regs,
                      TableAfter(hash, Front(regs), EvalIdKey).destroyed)
  {
    var front := Front(regs);
    PlacesAreApart(regs);
    FrontApart(regs, EvalIdKey);
    ReadyAfter(hash, infos, front, Last(regs));
    assert regs == front + [Last(regs)];
  }

  lemma ReadyAfter(hash: Hash, infos: seq<Info>, front: seq<Reg>, reg: Reg)
    requires Apart(front, EvalIdKey) && Accounted(infos, front, TableAfter(hash, front, EvalIdKey).destroyed)
    ensures Accounted(infos + [Info(reg.contents, 2, false)], front + [reg],
                      TableAfter(hash, front, EvalIdKey).destroyed)
  {
    DestroyedAreReplaced(hash, front, EvalIdKey);
    NewAccounted(infos, front, reg);
  }
}
