/** The flash-backed key/value store: a 16-slot typed table in front of the settings records. */
module ConfigStore {
  import Arith
  import opened Options
  import Text

  const MAX_ENTRIES: nat := 16
  const MAX_KEY_LEN: nat := 15
  const MAX_STR_LEN: nat := 127

  const ENOMEM: int := 12
  const EINVAL: int := 22

  datatype Kind = Str | I32
  datatype Value = StrValue(s: string) | I32Value(i: int)
  datatype Entry = Entry(used: bool, kind: Kind, key: string, value: Value)

  type Key = (Kind, string)

  predicate ValueOk(kind: Kind, v: Value) {
    match v
    case StrValue(s) => kind == Str && |s| <= MAX_STR_LEN
    case I32Value(i) => kind == I32 && -0x8000_0000 <= i <= 0x7FFF_FFFF
  }

  predicate Matches(e: Entry, k: Key) {
    e.used && e.kind == k.0 && e.key == k.1
  }

  // ---- the table as a map ----

  /** The first slot holding a key, |es| if none does. */
  function SlotOf(es: seq<Entry>, k: Key): (i: nat)
    ensures i <= |es| && (i < |es| ==> Matches(es[i], k))
    ensures forall j | 0 <= j < i :: !Matches(es[j], k)
  {
    if es == [] then 0
    else
      var i := SlotOf(es[..|es| - 1], k);
      if i < |es| - 1 || Matches(es[|es| - 1], k) then i else |es|
  }

  /** The first free slot, |es| if there is none. */
  function FreeSlot(es: seq<Entry>): (i: nat)
    ensures i <= |es| && (i < |es| ==> !es[i].used)
    ensures forall j | 0 <= j < i :: es[j].used
  {
    if es == [] then 0
    else
      var i := FreeSlot(es[..|es| - 1]);
      if i < |es| - 1 || !es[|es| - 1].used then i else |es|
  }

  function Lookup(es: seq<Entry>, k: Key): Option<Value> {
    var i := SlotOf(es, k);
    if i < |es| then Some(es[i].value) else None
  }

  function KeyOf(e: Entry): Key {
    (e.kind, e.key)
  }

  ghost predicate Unique(es: seq<Entry>) {
    forall i, j | 0 <= i < j < |es| && es[i].used && es[j].used :: KeyOf(es[i]) != KeyOf(es[j])
  }

  ghost predicate SlotsOk(es: seq<Entry>) {
    forall i | 0 <= i < |es| && es[i].used :: ValueOk(es[i].kind, es[i].value) && |es[i].key| <= MAX_KEY_LEN
  }

  ghost predicate TableOk(es: seq<Entry>) {
    Unique(es) && SlotsOk(es)
  }

  /** As much of a key as a slot has room for. */
  function KeyKept(key: string): (kept: string)
    ensures |key| <= MAX_KEY_LEN ==> kept == key
    ensures |key| > MAX_KEY_LEN ==> |kept| == MAX_KEY_LEN && kept < key
  {
    key[..Arith.Min(|key|, MAX_KEY_LEN)]
  }

  /** The table with a key set: in its slot, else in the first free one; None when there is no room. */
  function WithKey(es: seq<Entry>, k: Key, v: Value): Option<seq<Entry>> {
    var e := Entry(true, k.0, KeyKept(k.1), v);
    if SlotOf(es, k) < |es| then Some(es[SlotOf(es, k) := e])
    else if FreeSlot(es) < |es| then Some(es[FreeSlot(es) := e])
    else None
  }

  /** Setting a key keeps the table free of duplicates, gives the key its value and leaves every other key alone. */
  lemma WithKeySets(es: seq<Entry>, k: Key, v: Value, q: Key)
    requires TableOk(es) && WithKey(es, k, v).Some? && ValueOk(k.0, v) && |k.1| <= MAX_KEY_LEN
    ensures var after := WithKey(es, k, v).value;
            && |after| == |es| && TableOk(after)
            && Lookup(after, q) == if q == k then Some(v) else Lookup(es, q)
  {
    var after := WithKey(es, k, v).value;
    var at := if SlotOf(es, k) < |es| then SlotOf(es, k) else FreeSlot(es);
    forall i, j | 0 <= i < j < |after| && after[i].used && after[j].used
      ensures KeyOf(after[i]) != KeyOf(after[j])
    {
      assert Matches(es[at], k) || forall l | 0 <= l < |es| :: !Matches(es[l], k);
    }
    OneSlot(es, q);
    OneSlot(after, q);
    if q == k {
      assert Matches(after[at], q);
    } else if SlotOf(es, q) < |es| {
      assert Matches(after[SlotOf(es, q)], q);
    }
  }

  /** Setting any key keeps the slots as they must be, and free of duplicates exactly if they were and the key is short
      enough for a slot or no slot holds what is kept of it. */
  lemma SetUnique(es: seq<Entry>, k: Key, v: Value)
    requires SlotsOk(es) && WithKey(es, k, v).Some? && ValueOk(k.0, v)
    ensures var after := WithKey(es, k, v).value;
            && SlotsOk(after)
            && (Unique(after) <==>
                Unique(es) && (|k.1| <= MAX_KEY_LEN || Lookup(es, (k.0, KeyKept(k.1))) == None))
  {
    var after := WithKey(es, k, v).value;
    var slot, free := SlotOf(es, k), FreeSlot(es);
    if slot < |es| {
      assert forall i | 0 <= i < |es| :: after[i].used == es[i].used && KeyOf(after[i]) == KeyOf(es[i]);
    } else {
      assert forall i | 0 <= i < |es| && i != free :: after[i] == es[i];
      var at := SlotOf(es, (k.0, KeyKept(k.1)));
      if at < |es| {
        assert KeyOf(after[at]) == KeyOf(after[free]);
      } else {
        assert forall i | 0 <= i < |es| && es[i].used :: !Matches(es[i], KeyOf(after[free]));
      }
    }
  }

  /** Setting a key too long for a slot keeps the table free of duplicates exactly if no slot holds what is kept of the
      key; and under the whole key it isn't found again. */
  lemma LongKey(es: seq<Entry>, k: Key, v: Value)
    requires TableOk(es) && WithKey(es, k, v).Some? && ValueOk(k.0, v) && |k.1| > MAX_KEY_LEN
    ensures var after := WithKey(es, k, v).value;
            && (TableOk(after) <==> Lookup(es, (k.0, KeyKept(k.1))) == None)
            && Lookup(after, k) == None
  {
    var after := WithKey(es, k, v).value;
    SetUnique(es, k, v);
    assert SlotOf(after, k) == |after|;
  }

  lemma OneSlot(es: seq<Entry>, k: Key)
    requires TableOk(es)
    ensures forall i | 0 <= i < |es| && Matches(es[i], k) :: SlotOf(es, k) == i
  {
  }

  // ---- the table's size ----

  function Table(es: seq<Entry>): map<Key, Value> {
    if es == [] then map[]
    else
      var e := es[|es| - 1];
      if e.used then Table(es[..|es| - 1])[(e.kind, e.key) := e.value] else Table(es[..|es| - 1])
  }

  lemma TablePrefixOk(es: seq<Entry>, n: nat)
    requires TableOk(es) && n <= |es|
    ensures TableOk(es[..n])
  {
  }

  lemma {:induction false} TableIsLookup(es: seq<Entry>, k: Key)
    requires TableOk(es)
    ensures Lookup(es, k) == if k in Table(es) then Some(Table(es)[k]) else None
  {
    if es == [] {
    } else {
      TablePrefixOk(es, |es| - 1);
      TableIsLookup(es[..|es| - 1], k);
      OneSlot(es, k);
    }
  }

  function UsedCount(es: seq<Entry>): nat {
    if es == [] then 0 else UsedCount(es[..|es| - 1]) + if es[|es| - 1].used then 1 else 0
  }

  lemma {:induction false} TableSize(es: seq<Entry>)
    requires TableOk(es)
    ensures |Table(es)| == UsedCount(es) <= |es|
    ensures UsedCount(es) == |es| <==> FreeSlot(es) == |es|
  {
    if es == [] {
    } else {
      var n := |es| - 1;
      TablePrefixOk(es, n);
      TableSize(es[..n]);
      if es[n].used {
        var k := (es[n].kind, es[n].key);
        TableIsLookup(es[..n], k);
        assert k !in Table(es[..n]);
      }
    }
  }

  lemma TableOfWithKey(es: seq<Entry>, k: Key, v: Value)
    requires TableOk(es) && WithKey(es, k, v).Some? && ValueOk(k.0, v) && |k.1| <= MAX_KEY_LEN
    ensures Table(WithKey(es, k, v).value) == Table(es)[k := v]
  {
    var after := WithKey(es, k, v).value;
    WithKeySets(es, k, v, k);
    forall q: Key
      ensures q in Table(after) <==> q in Table(es)[k := v]
      ensures q in Table(after) ==> Table(after)[q] == Table(es)[k := v][q]
    {
      WithKeySets(es, k, v, q);
      TableIsLookup(after, q);
      TableIsLookup(es, q);
    }
  }

  // ---- loading ----

  datatype Record = Record(key: Key, value: Value)

  const UNUSED: Entry := Entry(false, Str, "", StrValue(""))

  function Empty(): seq<Entry> {
    seq(MAX_ENTRIES, _ => UNUSED)
  }

  /** A record holds a string or a 32-bit number, as its key says; nothing else is known of one found in flash. */
  predicate RecordTyped(r: Record) {
    match r.value
    case StrValue(_) => r.key.0 == Str
    case I32Value(i) => r.key.0 == I32 && -0x8000_0000 <= i <= 0x7FFF_FFFF
  }

  /** As much of a record's value as is read. */
  function ValueRead(v: Value): (read: Value)
    ensures v.I32Value? || |v.s| <= MAX_STR_LEN ==> read == v
    ensures v.StrValue? && |v.s| > MAX_STR_LEN ==> read.StrValue? && |read.s| == MAX_STR_LEN && read.s < v.s
  {
    match v
    case StrValue(s) => StrValue(s[..Arith.Min(|s|, MAX_STR_LEN)])
    case I32Value(_) => v
  }

  /** The table after the loader has handed over some records, one by one; one that finds no room is dropped. */
  function Loaded(records: seq<Record>): (es: seq<Entry>)
    ensures |es| == MAX_ENTRIES
  {
    if records == [] then Empty()
    else
      var r := records[|records| - 1];
      var before := Loaded(records[..|records| - 1]);
      match WithKey(before, r.key, ValueRead(r.value))
      case Some(after) => after
      case None => before
  }

  /** Records that are, in some order, exactly a map's. */
  ghost predicate Enumerates(records: seq<Record>, flash: map<Key, Value>) {
    && (forall i, j | 0 <= i < j < |records| :: records[i].key != records[j].key)
    && (forall i | 0 <= i < |records| :: records[i].key in flash && flash[records[i].key] == records[i].value)
    && (forall k | k in flash :: exists i | 0 <= i < |records| :: records[i].key == k)
  }

  /** A record as the store writes them. */
  predicate RecordOk(r: Record) {
    ValueOk(r.key.0, r.value) && |r.key.1| <= MAX_KEY_LEN
  }

  function RecordMap(records: seq<Record>): map<Key, Value> {
    if records == [] then map[]
    else RecordMap(records[..|records| - 1])[records[|records| - 1].key := records[|records| - 1].value]
  }

  lemma {:induction false} RecordMapOf(records: seq<Record>, flash: map<Key, Value>)
    requires forall i, j | 0 <= i < j < |records| :: records[i].key != records[j].key
    requires forall i | 0 <= i < |records| :: records[i].key in flash && flash[records[i].key] == records[i].value
    ensures |RecordMap(records)| == |records|
    ensures forall k :: k in RecordMap(records) <==> exists i | 0 <= i < |records| :: records[i].key == k
    ensures forall k | k in RecordMap(records) :: k in flash && RecordMap(records)[k] == flash[k]
  {
    if records == [] {
    } else {
      RecordMapOf(records[..|records| - 1], flash);
    }
  }

  lemma {:induction false} LoadedIs(records: seq<Record>)
    requires |records| <= MAX_ENTRIES && forall i | 0 <= i < |records| :: RecordOk(records[i])
    requires forall i, j | 0 <= i < j < |records| :: records[i].key != records[j].key
    requires forall n | 0 <= n <= |records| :: |RecordMap(records[..n])| == n
    ensures TableOk(Loaded(records)) && Table(Loaded(records)) == RecordMap(records)
  {
    if records == [] {
      EmptyTable(MAX_ENTRIES);
      assert Empty()[..MAX_ENTRIES] == Empty();
    } else {
      var n := |records| - 1;
      var before := Loaded(records[..n]);
      assert forall m | 0 <= m <= n :: records[..n][..m] == records[..m];
      LoadedIs(records[..n]);
      TableSize(before);
      assert WithKey(before, records[n].key, records[n].value).Some?;
      WithKeySets(before, records[n].key, records[n].value, records[n].key);
      TableOfWithKey(before, records[n].key, records[n].value);
    }
  }

  lemma {:induction false} EmptyTable(n: nat)
    requires n <= MAX_ENTRIES
    ensures Table(Empty()[..n]) == map[]
  {
    if n > 0 {
      assert Empty()[..n][..n - 1] == Empty()[..n - 1];
      EmptyTable(n - 1);
    }
  }

  /** Loading the records of a table's content into an empty table, in whatever order, gives back every lookup. */
  lemma ReloadKeepsLookups(es: seq<Entry>, records: seq<Record>, k: Key)
    requires |es| == MAX_ENTRIES && TableOk(es) && Enumerates(records, Table(es))
    ensures TableOk(Loaded(records)) && Lookup(Loaded(records), k) == Lookup(es, k)
  {
    TableSize(es);
    forall i | 0 <= i < |records|
      ensures RecordOk(records[i])
    {
      TableIsLookup(es, records[i].key);
    }
    EnumerationSizes(records, Table(es));
    LoadedIs(records);
    TableIsLookup(Loaded(records), k);
    TableIsLookup(es, k);
  }

  lemma EnumerationSizes(records: seq<Record>, flash: map<Key, Value>)
    requires Enumerates(records, flash)
    ensures RecordMap(records) == flash && |records| == |flash|
    ensures forall n | 0 <= n <= |records| :: |RecordMap(records[..n])| == n
  {
    hide RecordMap;
    RecordMapOf(records, flash);
    assert RecordMap(records) == flash;
    forall n | 0 <= n <= |records|
      ensures |RecordMap(records[..n])| == n
    {
      PrefixSize(records, flash, n);
    }
  }

  lemma PrefixSize(records: seq<Record>, flash: map<Key, Value>, n: nat)
    requires Enumerates(records, flash) && n <= |records|
    ensures |RecordMap(records[..n])| == n
  {
    hide RecordMap;
    RecordMapOf(records[..n], flash);
  }

  /** The key a slot holds for a record. */
  function KeptAs(r: Record): Key {
    (r.key.0, KeyKept(r.key.1))
  }

  ghost predicate KeptBy(records: seq<Record>, q: Key) {
    exists j | 0 <= j < |records| :: KeptAs(records[j]) == q
  }

  ghost predicate AllTyped(records: seq<Record>) {
    forall i | 0 <= i < |records| :: RecordTyped(records[i])
  }

  /** The record needs a slot of its own, gets one, and an earlier one with the same kept key has one already. */
  ghost predicate Twin(records: seq<Record>, i: nat)
    requires i < |records|
  {
    && |records[i].key.1| > MAX_KEY_LEN && FreeSlot(Loaded(records[..i])) < MAX_ENTRIES
    && KeptBy(records[..i], KeptAs(records[i]))
  }

  ghost predicate Clean(records: seq<Record>) {
    forall i | 0 <= i < |records| :: !Twin(records, i)
  }

  /** As long as there is room, exactly the kept keys of the records so far are held. */
  lemma {:induction false} LoadedHolds(records: seq<Record>, q: Key)
    requires AllTyped(records)
    ensures SlotsOk(Loaded(records))
    ensures FreeSlot(Loaded(records)) < MAX_ENTRIES ==>
              (SlotOf(Loaded(records), q) < MAX_ENTRIES <==> KeptBy(records, q))
  {
    hide SlotOf, FreeSlot, KeptBy, Lookup, ValueRead;
    if records == [] {
      NoneHeld(q);
    } else {
      var n := |records| - 1;
      var before, r := Loaded(records[..n]), records[n];
      LoadedHolds(records[..n], q);
      KeptByNext(records, q);
      NoRoom(before, r.key, ValueRead(r.value));
      if WithKey(before, r.key, ValueRead(r.value)).Some? {
        ReadOk(r);
        SetUnique(before, r.key, ValueRead(r.value));
        HeldAfter(before, r.key, ValueRead(r.value), q);
      }
    }
  }

  lemma NoneHeld(q: Key)
    ensures SlotOf(Empty(), q) == MAX_ENTRIES && !KeptBy([], q)
  {
  }

  lemma ReadOk(r: Record)
    requires RecordTyped(r)
    ensures ValueOk(r.key.0, ValueRead(r.value))
  {
  }

  lemma NoRoom(es: seq<Entry>, k: Key, v: Value)
    ensures WithKey(es, k, v) == None ==> FreeSlot(es) == |es|
  {
  }

  lemma KeptByNext(records: seq<Record>, q: Key)
    requires records != []
    ensures KeptBy(records, q) <==> KeptBy(records[..|records| - 1], q) || KeptAs(records[|records| - 1]) == q
  {
    hide KeptAs;
  }

  lemma HeldAfter(es: seq<Entry>, k: Key, v: Value, q: Key)
    requires SlotsOk(es) && WithKey(es, k, v).Some?
    ensures var after := WithKey(es, k, v).value;
            && (SlotOf(after, q) < |after| <==> SlotOf(es, q) < |es| || q == (k.0, KeyKept(k.1)))
            && (FreeSlot(after) < |after| ==> FreeSlot(es) < |es|)
  {
    var after := WithKey(es, k, v).value;
    var at := if SlotOf(es, k) < |es| then SlotOf(es, k) else FreeSlot(es);
    assert forall i | 0 <= i < |es| && i != at :: after[i] == es[i];
    assert Matches(after[at], q) <==> q == (k.0, KeyKept(k.1));
    assert Matches(es[at], q) ==> q == k;
    if SlotOf(es, q) < |es| {
      assert Matches(after[SlotOf(es, q)], q);
    }
    if SlotOf(after, q) < |after| && SlotOf(after, q) != at {
      assert Matches(es[SlotOf(after, q)], q);
    }
    if FreeSlot(after) < |after| {
      assert FreeSlot(after) != at && !es[FreeSlot(after)].used;
    }
  }

  /** Whatever the records, loading leaves the table free of duplicates exactly if none of them is a twin. */
  lemma {:induction false} LoadedOk(records: seq<Record>)
    requires AllTyped(records)
    ensures TableOk(Loaded(records)) <==> Clean(records)
  {
    if records != [] {
      var n := |records| - 1;
      var before, r := Loaded(records[..n]), records[n];
      LoadedOk(records[..n]);
      CleanNext(records);
      LoadedHolds(records[..n], KeptAs(r));
      if WithKey(before, r.key, ValueRead(r.value)).Some? {
        SetUnique(before, r.key, ValueRead(r.value));
        if |r.key.1| > MAX_KEY_LEN {
          assert SlotOf(before, r.key) == |before|;
        }
      }
    }
  }

  lemma CleanNext(records: seq<Record>)
    requires records != []
    ensures Clean(records) <==> Clean(records[..|records| - 1]) && !Twin(records, |records| - 1)
  {
    hide Loaded, FreeSlot, KeptAs;
    var n := |records| - 1;
    forall i | 0 <= i < n
      ensures Twin(records, i) <==> Twin(records[..n], i)
    {
      assert records[..n][..i] == records[..i];
    }
  }

  /** The records that can be read whole. */
  function Readable(records: seq<Record>, readOk: seq<bool>): (rs: seq<Record>)
    requires |readOk| == |records|
  {
    if records == [] then []
    else
      var n := |records| - 1;
      Readable(records[..n], readOk[..n]) + if readOk[n] then [records[n]] else []
  }

  lemma ReadableNext(records: seq<Record>, readOk: seq<bool>, i: nat)
    requires |readOk| == |records| && i < |records|
    ensures Readable(records[..i + 1], readOk[..i + 1])
         == Readable(records[..i], readOk[..i]) + if readOk[i] then [records[i]] else []
  {
    assert records[..i + 1][..i] == records[..i] && readOk[..i + 1][..i] == readOk[..i];
  }

  lemma {:induction false} ReadableIsTyped(records: seq<Record>, readOk: seq<bool>, i: nat)
    requires |readOk| == |records| && AllTyped(Readable(records, readOk)) && i < |records| && readOk[i]
    ensures RecordTyped(records[i])
  {
    hide RecordTyped;
    var n := |records| - 1;
    var before := Readable(records[..n], readOk[..n]);
    if i == n {
      assert Readable(records, readOk)[|before|] == records[n];
    } else {
      assert forall j | 0 <= j < |before| :: before[j] == Readable(records, readOk)[j];
      ReadableIsTyped(records[..n], readOk[..n], i);
    }
  }

  lemma LoadedNone()
    ensures Loaded([]) == Empty()
  {
  }

  lemma LoadedNext(records: seq<Record>, r: Record)
    ensures Loaded(records + [r])
         == match WithKey(Loaded(records), r.key, ValueRead(r.value))
            case Some(after) => after
            case None => Loaded(records)
  {
    assert (records + [r])[..|records|] == records;
  }

  /** Two records whose keys differ only behind a slot's end load into two slots with one key. */
  lemma TwinsLoaded(stem: string, a: Record, b: Record)
    requires |stem| == MAX_KEY_LEN && RecordTyped(a) && RecordTyped(b)
    requires a.key == (Str, stem + "1") && b.key == (Str, stem + "2")
    ensures !TableOk(Loaded([a, b])) && Lookup(Loaded([a, b]), a.key) == None == Lookup(Loaded([a, b]), b.key)
  {
    var records := [a, b];
    LoadedHolds(records, a.key);
    assert records[..1] == [a] && [a][..0] == [];
    assert FreeSlot(Loaded([a])) < MAX_ENTRIES by {
      NoneHeld(a.key);
      assert !Empty()[0].used && !Empty()[1].used;
      assert FreeSlot(Empty()) == 0;
      assert !Loaded([a])[1].used;
    }
    assert KeptAs([a][0]) == KeptAs(b) == (Str, stem);
    assert Twin(records, 1);
    LoadedOk(records);
    assert SlotOf(Loaded(records), a.key) == MAX_ENTRIES == SlotOf(Loaded(records), b.key);
  }

  // ---- listing ----

  function ValueText(v: Value): string {
    match v
    case StrValue(s) => s
    case I32Value(i) => if i < 0 then "-" + Text.Decimal(-i) else Text.Decimal(i)
  }

  function Line(e: Entry): (s: string)
    ensures |s| >= 3
  {
    e.key + "=" + ValueText(e.value) + "\r\n"
  }

  /** Strtol reads the value of a number's line back, and a string's is the string itself: both stand between the first
      "=" behind the key and the line's end. */
  lemma LineReads(e: Entry)
    requires ValueOk(e.kind, e.value) && '=' !in e.key
    ensures var line := Line(e);
            && Text.IndexOf(line, '=') == |e.key| && line[..|e.key|] == e.key && line[|line| - 2..] == "\r\n"
            && |e.key| + 1 <= |line| - 2
            && var value := line[|e.key| + 1..|line| - 2];
               match e.value
               case StrValue(s) => value == s
               case I32Value(i) => Text.Number(value, -0x8000_0000, 0x7FFF_FFFF) == Some(i)
  {
    var line, value := Line(e), ValueText(e.value);
    assert line == e.key + ['='] + (value + "\r\n");
    Text.IndexOfHead(e.key, '=', value + "\r\n");
    assert line[|e.key| + 1..|line| - 2] == value;
    match e.value
    case StrValue(s) =>
    case I32Value(i) => PrintedNumber(i);
  }

  lemma PrintedNumber(i: int)
    requires -0x8000_0000 <= i <= 0x7FFF_FFFF
    ensures Text.Number(ValueText(I32Value(i)), -0x8000_0000, 0x7FFF_FFFF) == Some(i)
  {
    hide Text.Strtol, Text.Decimal;
    var sign, n := if i < 0 then "-" else "", if i < 0 then -i else i;
    var text := ValueText(I32Value(i));
    Text.StrtolSigned(0, sign, n, "");
    assert Text.Spaces(0) + (sign + (Text.Decimal(n) + "")) == text;
  }

  /** The lines of the used entries among the first n. */
  function Lines(es: seq<Entry>, n: nat): string
    requires n <= |es|
  {
    if n == 0 then "" else Lines(es, n - 1) + if es[n - 1].used then Line(es[n - 1]) else ""
  }

  /** They are in the order of the slots: whatever more entries add comes behind. */
  lemma {:induction false} LinesInOrder(es: seq<Entry>, i: nat, n: nat)
    requires i < n <= |es| && es[i].used
    ensures Lines(es, i) + Line(es[i]) <= Lines(es, n)
    decreases n
  {
    if i < n - 1 {
      LinesInOrder(es, i, n - 1);
    }
  }

  // ---- the store ----

  class Store {
    const entries: array<Entry>
    // The settings records.
    var flash: map<Key, Value>

    ghost predicate Sized()
      reads this
    {
      entries.Length == MAX_ENTRIES
    }

    ghost predicate Valid()
      reads this, entries
    {
      Sized() && TableOk(entries[..])
    }

    /** Every save so far has succeeded: the records are the table. */
    ghost predicate Synced()
      reads this, entries
    {
      flash == Table(entries[..])
    }

    constructor ()
      ensures Valid() && Synced() && flash == map[] && fresh(entries)
    {
      entries := new Entry[MAX_ENTRIES](_ => UNUSED);
      flash := map[];
      new;
      assert entries[..] == Empty()[..MAX_ENTRIES];
      EmptyTable(MAX_ENTRIES);
    }

    /** The slot of a key, or - if `create` - the first free one claimed for it; MAX_ENTRIES for none. */
    method FindEntry(k: Key, create: bool) returns (slot: nat)
      requires Sized()
      modifies entries
      ensures slot <= MAX_ENTRIES
      ensures var es := old(entries[..]);
              var at := SlotOf(es, k);
              if at < |es| then slot == at && entries[..] == es
              else if create && FreeSlot(es) < |es|
              then slot == FreeSlot(es) && entries[..] == es[slot := Entry(true, k.0, KeyKept(k.1), es[slot].value)]
              else slot == MAX_ENTRIES && entries[..] == es
    {
      var free: nat := MAX_ENTRIES;
      for i := 0 to MAX_ENTRIES
        invariant forall j | 0 <= j < i :: !Matches(entries[j], k)
        invariant if free < MAX_ENTRIES
                  then free < i && !entries[free].used && forall j | 0 <= j < free :: entries[j].used
                  else free == MAX_ENTRIES && forall j | 0 <= j < i :: entries[j].used
      {
        if entries[i].used && entries[i].kind == k.0 && entries[i].key == k.1 {
          assert Matches(entries[..][i], k);
          return i;
        }
        if !entries[i].used && free == MAX_ENTRIES {
          free := i;
        }
      }
      if !create || free == MAX_ENTRIES {
        return MAX_ENTRIES;
      }
      entries[free] := Entry(true, k.0, KeyKept(k.1), entries[free].value);
      slot := free;
    }

    /** Puts a value in the table. */
    method Put(k: Key, v: Value) returns (err: int)
      requires Sized()
      modifies entries
      ensures match WithKey(old(entries[..]), k, v)
              case Some(after) => err == 0 && entries[..] == after
              case None => err == -ENOMEM && entries[..] == old(entries[..])
    {
      ghost var before := entries[..];
      var slot := FindEntry(k, true);
      if slot == MAX_ENTRIES {
        return -ENOMEM;
      }
      entries[slot] := Entry(true, k.0, KeyKept(k.1), v);
      assert entries[..] == WithKey(before, k, v).value;
      err := 0;
    }

    /** Puts a value in the table and saves it; `saveErr` is what saving returns. The table takes the value even when
        saving fails. */
    method Set(k: Key, v: Value, saveErr: int) returns (err: int)
      requires Valid() && |k.1| <= MAX_KEY_LEN && ValueOk(k.0, v)
      modifies this, entries
      ensures Valid() && (saveErr == 0 && old(Synced()) ==> Synced())
      ensures match WithKey(old(entries[..]), k, v)
              case Some(after) =>
                err == saveErr && entries[..] == after &&
                flash == if saveErr == 0 then old(flash)[k := v] else old(flash)
              case None => err == -ENOMEM && entries[..] == old(entries[..]) && flash == old(flash)
    {
      ghost var before := entries[..];
      var put := Put(k, v);
      if put != 0 {
        return put;
      }
      WithKeySets(before, k, v, k);
      TableOfWithKey(before, k, v);
      if saveErr == 0 {
        flash := flash[k := v];
      }
      err := saveErr;
    }

    /** Persists a string; too long a key or value is refused, storing nothing. */
    method ConfigSetStr(key: string, val: string, saveErr: int) returns (err: int)
      requires Valid()
      modifies this, entries
      ensures Valid() && (saveErr == 0 && old(Synced()) ==> Synced())
      ensures if |key| > MAX_KEY_LEN || |val| > MAX_STR_LEN
              then err == -EINVAL && entries[..] == old(entries[..]) && flash == old(flash)
              else match WithKey(old(entries[..]), (Str, key), StrValue(val))
                   case Some(after) =>
                     err == saveErr && entries[..] == after &&
                     flash == if saveErr == 0 then old(flash)[(Str, key) := StrValue(val)] else old(flash)
                   case None => err == -ENOMEM && entries[..] == old(entries[..]) && flash == old(flash)
    {
      if |key| > MAX_KEY_LEN || |val| > MAX_STR_LEN {
        return -EINVAL;
      }
      err := Set((Str, key), StrValue(val), saveErr);
    }

    method ConfigSetI32(key: string, val: int, saveErr: int) returns (err: int)
      requires Valid() && -0x8000_0000 <= val <= 0x7FFF_FFFF
      modifies this, entries
      ensures Valid() && (saveErr == 0 && old(Synced()) ==> Synced())
      ensures if |key| > MAX_KEY_LEN
              then err == -EINVAL && entries[..] == old(entries[..]) && flash == old(flash)
              else match WithKey(old(entries[..]), (I32, key), I32Value(val))
                   case Some(after) =>
                     err == saveErr && entries[..] == after &&
                     flash == if saveErr == 0 then old(flash)[(I32, key) := I32Value(val)] else old(flash)
                   case None => err == -ENOMEM && entries[..] == old(entries[..]) && flash == old(flash)
    {
      if |key| > MAX_KEY_LEN {
        return -EINVAL;
      }
      err := Set((I32, key), I32Value(val), saveErr);
    }

    /** The string stored under a key, else the default, cut to fit the buffer with its NUL. */
    method ConfigGetStr(key: string, bufLen: nat, default: string) returns (s: string)
      requires Valid() && 0 < bufLen
      modifies entries
      ensures entries[..] == old(entries[..])
      ensures var src := match Lookup(entries[..], (Str, key))
                         case Some(StrValue(t)) => t
                         case _ => default;
              s == src[..Arith.Min(|src|, bufLen - 1)]
    {
      var src := default;
      var slot := FindEntry((Str, key), false);
      if slot < MAX_ENTRIES {
        assert ValueOk(entries[..][slot].kind, entries[..][slot].value);
        src := entries[slot].value.s;
      }
      s := src[..Arith.Min(|src|, bufLen - 1)];
    }

    method ConfigGetI32(key: string, default: int) returns (val: int)
      requires Valid()
      modifies entries
      ensures entries[..] == old(entries[..])
      ensures val == match Lookup(entries[..], (I32, key))
                     case Some(I32Value(i)) => i
                     case _ => default
    {
      var slot := FindEntry((I32, key), false);
      if slot == MAX_ENTRIES {
        return default;
      }
      assert ValueOk(entries[..][slot].kind, entries[..][slot].value);
      val := entries[slot].value.i;
    }

    /** One record read from flash, as the loader hands it over; `readOk` is false when it can't be read whole. */
    method SettingsSet(r: Record, readOk: bool) returns (err: int)
      requires Sized() && (readOk ==> RecordTyped(r))
      modifies entries
      ensures old(Valid()) ==>
                var key, was := r.key.1, old(entries[..]);
                Valid() <==> !readOk || |key| <= MAX_KEY_LEN || FreeSlot(was) == |was|
                             || Lookup(was, (r.key.0, KeyKept(key))) == None
      ensures if !readOk then err < 0 && entries[..] == old(entries[..])
              else match WithKey(old(entries[..]), r.key, ValueRead(r.value))
                   case Some(after) => err == 0 && entries[..] == after
                   case None => err == -ENOMEM && entries[..] == old(entries[..])
    {
      if !readOk {
        return -EINVAL;
      }
      ghost var was := entries[..];
      err := Put(r.key, ValueRead(r.value));
      if TableOk(was) && WithKey(was, r.key, ValueRead(r.value)).Some? {
        SetUnique(was, r.key, ValueRead(r.value));
      }
    }

    /** Loading at start: every record in turn, into a table that has just been created. One that can't be read whole
        is passed over. */
    method SettingsLoad(records: seq<Record>, readOk: seq<bool>)
      requires Sized() && entries[..] == Empty()
      requires |readOk| == |records| && AllTyped(Readable(records, readOk))
      modifies entries
      ensures entries[..] == Loaded(Readable(records, readOk)) && (Valid() <==> Clean(Readable(records, readOk)))
    {
      hide Loaded, RecordTyped, Unique, SlotsOk;
      LoadedNone();
      for i := 0 to |records|
        invariant entries[..] == Loaded(Readable(records[..i], readOk[..i]))
      {
        ReadableNext(records, readOk, i);
        LoadedNext(Readable(records[..i], readOk[..i]), records[i]);
        if readOk[i] {
          ReadableIsTyped(records, readOk, i);
        } else {
          assert Readable(records[..i], readOk[..i]) + [] == Readable(records[..i], readOk[..i]);
        }
        var err := SettingsSet(records[i], readOk[i]);
      }
      assert records[..|records|] == records && readOk[..|records|] == readOk;
      LoadedOk(Readable(records, readOk));
    }

    /** Whole lines of as many entries, in slot order, as fit before the buffer's last byte. */
    method ConfigList(bufLen: nat) returns (text: string, listed: nat)
      requires Valid()
      ensures listed <= MAX_ENTRIES && text == Lines(entries[..], listed)
      ensures text == "" || |text| < bufLen
      ensures listed < MAX_ENTRIES ==> entries[listed].used && |text| + |Line(entries[listed])| >= bufLen
    {
      text := "";
      listed := 0;
      while listed < MAX_ENTRIES
        invariant listed <= MAX_ENTRIES && text == Lines(entries[..], listed)
        invariant text == "" || |text| < bufLen
      {
        if entries[listed].used {
          var line := Line(entries[listed]);
          if |line| >= bufLen - |text| {
            return;
          }
          text := text + line;
        }
        listed := listed + 1;
      }
    }
  }
}
