/** Saving a class's editor buffer to the image: only the differences are written, against a map of
    what was stored that is read once. */
module Persist {
  import opened Options

  datatype Key = Key(selector: string, classSide: bool)

  datatype Method = Method(key: Key, source: string)

  /** A method's latest version; removal writes a version that is marked deleted. */
  datatype Version = Version(number: nat, category: string, source: string, deleted: bool)

  type Rows = map<Key, Version>

  // ---------------------------------------------------------------- the image

  function Live(rows: Rows): map<Key, string> {
    map k | k in rows && !rows[k].deleted :: rows[k].source
  }

  function Written(rows: Rows, m: Method): Rows {
    rows[m.key := Version(if m.key in rows then rows[m.key].number + 1 else 1, "", m.source, false)]
  }

  function Tombstone(v: Version): Version {
    if v.deleted then v else Version(v.number + 1, v.category, v.source, true)
  }

  function Without(rows: Rows, gone: set<Key>): Rows {
    map k | k in rows :: if k in gone then Tombstone(rows[k]) else rows[k]
  }

  // ---------------------------------------------------------------- a save

  /** Stored already, with this source. */
  predicate Same(stored: map<Key, string>, m: Method) {
    m.key in stored && stored[m.key] == m.source
  }

  function AfterWrites(rows: Rows, stored: map<Key, string>, buffer: seq<Method>): Rows {
    if buffer == [] then rows
    else
      var m, before := buffer[|buffer| - 1], AfterWrites(rows, stored, buffer[..|buffer| - 1]);
      if Same(stored, m) then before else Written(before, m)
  }

  function Keys(buffer: seq<Method>): set<Key> {
    set i | 0 <= i < |buffer| :: buffer[i].key
  }

  function Saved(rows: Rows, buffer: seq<Method>): Rows {
    Without(AfterWrites(rows, Live(rows), buffer), Live(rows).Keys - Keys(buffer))
  }

  /** Writes to a stored key, and to a new one. */
  function Changes(stored: map<Key, string>, buffer: seq<Method>): nat {
    if buffer == [] then 0
    else
      var m := buffer[|buffer| - 1];
      Changes(stored, buffer[..|buffer| - 1]) + if m.key in stored && stored[m.key] != m.source then 1 else 0
  }

  function Additions(stored: map<Key, string>, buffer: seq<Method>): nat {
    if buffer == [] then 0
    else Additions(stored, buffer[..|buffer| - 1]) + if buffer[|buffer| - 1].key in stored then 0 else 1
  }

  class Image {
    var rows: Rows

    constructor (rows: Rows)
      ensures this.rows == rows
    {
      this.rows := rows;
    }

    method CreateOrReopenMethod(m: Method)
      modifies this
      ensures rows == Written(old(rows), m)
    {
      var number := if m.key in rows then rows[m.key].number + 1 else 1;
      rows := rows[m.key := Version(number, "", m.source, false)];
    }

    method RemoveMethod(k: Key)
      modifies this
      ensures rows == Without(old(rows), {k})
    {
      if k !in rows {
        return;
      }
      if rows[k].deleted {
        return;
      }
      rows := rows[k := Version(rows[k].number + 1, rows[k].category, rows[k].source, true)];
    }

    /** Changed methods rewritten, new ones added, identical ones left alone. */
    method WriteDifferences(buffer: seq<Method>, stored: map<Key, string>) returns (changed: nat, added: nat)
      modifies this
      ensures rows == AfterWrites(old(rows), stored, buffer)
      ensures changed == Changes(stored, buffer) && added == Additions(stored, buffer)
    {
      changed, added := 0, 0;
      var i := 0;
      while i < |buffer|
        invariant 0 <= i <= |buffer|
        invariant rows == AfterWrites(old(rows), stored, buffer[..i])
        invariant changed == Changes(stored, buffer[..i]) && added == Additions(stored, buffer[..i])
      {
        var m := buffer[i];
        assert buffer[..i + 1][..i] == buffer[..i];
        if m.key in stored {
          if stored[m.key] != m.source {
            CreateOrReopenMethod(m);
            changed := changed + 1;
          }
        } else {
          CreateOrReopenMethod(m);
          added := added + 1;
        }
        i := i + 1;
      }
      assert buffer[..|buffer|] == buffer;
    }

    /** Stored keys that are not present are removed, in whatever order the map yields them. */
    method RemoveVanished(stored: map<Key, string>, present: set<Key>) returns (removed: nat)
      modifies this
      ensures rows == Without(old(rows), stored.Keys - present)
      ensures removed == |stored.Keys - present|
    {
      removed := 0;
      var todo := stored.Keys;
      ghost var gone := {};
      assert Without(rows, gone) == rows;
      while todo != {}
        invariant todo <= stored.Keys && gone == stored.Keys - present - todo
        invariant rows == Without(old(rows), gone) && removed == |gone|
        decreases |todo|
      {
        var k :| k in todo;
        todo := todo - {k};
        if k !in present {
          WithoutOneMore(old(rows), gone, k);
          RemoveMethod(k);
          removed := removed + 1;
          gone := gone + {k};
        }
      }
      assert gone == stored.Keys - present;
    }

    method PersistEditorClass(buffer: seq<Method>) returns (changed: nat, added: nat, removed: nat)
      modifies this
      ensures rows == Saved(old(rows), buffer)
      ensures changed == Changes(Live(old(rows)), buffer)
      ensures added == Additions(Live(old(rows)), buffer)
      ensures removed == |Live(old(rows)).Keys - Keys(buffer)|
    {
      var stored := Live(rows);
      changed, added := WriteDifferences(buffer, stored);
      removed := RemoveVanished(stored, Keys(buffer));
    }
  }

  lemma {:induction false} WithoutOneMore(rows: Rows, gone: set<Key>, k: Key)
    ensures Without(Without(rows, gone), {k}) == Without(rows, gone + {k})
  {
  }

  // ---------------------------------------------------------------- what a save does to one key

  /** The last source written for `k`. */
  function LastWritten(stored: map<Key, string>, buffer: seq<Method>, k: Key): Option<string> {
    if buffer == [] then None
    else
      var m := buffer[|buffer| - 1];
      if m.key == k && !Same(stored, m) then Some(m.source) else LastWritten(stored, buffer[..|buffer| - 1], k)
  }

  /** The buffer as a map, a later definition of a key replacing an earlier one. */
  function BufferMap(buffer: seq<Method>): map<Key, string> {
    if buffer == [] then map[]
    else BufferMap(buffer[..|buffer| - 1])[buffer[|buffer| - 1].key := buffer[|buffer| - 1].source]
  }

  lemma {:induction false} KeysFront(buffer: seq<Method>)
    requires buffer != []
    ensures Keys(buffer) == Keys(buffer[..|buffer| - 1]) + {buffer[|buffer| - 1].key}
  {
    var before := buffer[..|buffer| - 1];
    forall k | k in Keys(buffer) ensures k in Keys(before) + {buffer[|buffer| - 1].key} {
      var i :| 0 <= i < |buffer| && buffer[i].key == k;
      if i < |before| {
        assert before[i].key == k;
      }
    }
    forall k | k in Keys(before) ensures k in Keys(buffer) {
      var i :| 0 <= i < |before| && before[i].key == k;
      assert buffer[i].key == k;
    }
  }

  lemma {:induction false} BufferMapKeys(buffer: seq<Method>)
    ensures BufferMap(buffer).Keys == Keys(buffer)
  {
    if buffer != [] {
      KeysFront(buffer);
      BufferMapKeys(buffer[..|buffer| - 1]);
    }
  }

  lemma {:induction false} WritesAt(rows: Rows, stored: map<Key, string>, buffer: seq<Method>, k: Key)
    ensures var w, after := LastWritten(stored, buffer, k), AfterWrites(rows, stored, buffer);
            && (w.Some? ==> k in Keys(buffer) && k in after && !after[k].deleted && after[k].source == w.value)
            && (w.None? ==> (k in after <==> k in rows) && (k in rows ==> after[k] == rows[k]))
            && (w.None? && k in Keys(buffer) ==>
                  k in stored && k in BufferMap(buffer) && BufferMap(buffer)[k] == stored[k])
  {
    if buffer != [] {
      KeysFront(buffer);
      WritesAt(rows, stored, buffer[..|buffer| - 1], k);
    }
  }

  /** What a save leaves at `k`: the last different source in the buffer, else what was there if the
      buffer has `k`, else nothing live. */
  lemma {:induction false} SavedAt(rows: Rows, buffer: seq<Method>, k: Key)
    ensures var w, after := LastWritten(Live(rows), buffer, k), Saved(rows, buffer);
            && (w.Some? ==> k in Live(after) && Live(after)[k] == w.value)
            && (w.None? && k in Keys(buffer) ==> k in rows && k in after && after[k] == rows[k] && !rows[k].deleted)
            && (k !in Keys(buffer) ==> k !in Live(after))
  {
    WritesAt(rows, Live(rows), buffer, k);
  }

  /** The buffer's definitions of `k` that differ from what was stored. */
  function WritePlaces(stored: map<Key, string>, buffer: seq<Method>, k: Key): set<nat> {
    set i: nat | i < |buffer| && buffer[i].key == k && !Same(stored, buffer[i])
  }

  lemma {:induction false} NumbersAfterWrites(rows: Rows, stored: map<Key, string>, buffer: seq<Method>, k: Key)
    ensures var w, after := |WritePlaces(stored, buffer, k)|, AfterWrites(rows, stored, buffer);
            && (k in after <==> k in rows || w > 0)
            && (k in after ==> after[k].number == (if k in rows then rows[k].number else 0) + w)
            && (w == 0 && k in rows ==> after[k] == rows[k])
            && (w > 0 ==> !after[k].deleted)
  {
    if buffer == [] {
      assert WritePlaces(stored, buffer, k) == {};
    } else {
      var n := |buffer| - 1;
      var m, before, earlier := buffer[n], buffer[..n], WritePlaces(stored, buffer[..n], k);
      NumbersAfterWrites(rows, stored, before, k);
      if m.key == k && !Same(stored, m) {
        assert WritePlaces(stored, buffer, k) == earlier + {n};
      } else {
        assert WritePlaces(stored, buffer, k) == earlier;
      }
    }
  }

  /** A save raises a method's version number by one for each definition that differs from what was stored
      and, when the method was live and is out of the buffer, by one for its removal, which keeps its
      category and source. */
  lemma {:induction false} VersionsCountWrites(rows: Rows, buffer: seq<Method>, k: Key)
    ensures var w, after := |WritePlaces(Live(rows), buffer, k)|, Saved(rows, buffer);
            var removed := k in Live(rows) && k !in Keys(buffer);
            && (k in after <==> k in rows || w > 0)
            && (k in after ==>
                  after[k].number == (if k in rows then rows[k].number else 0) + w + if removed then 1 else 0)
            && (removed ==> w == 0 && after[k].deleted
                            && after[k].category == rows[k].category && after[k].source == rows[k].source)
  {
    NumbersAfterWrites(rows, Live(rows), buffer, k);
    if k !in Keys(buffer) {
      assert WritePlaces(Live(rows), buffer, k) == {};
    }
  }

  // ---------------------------------------------------------------- what a save achieves

  /** No key is defined twice. */
  predicate Distinct(buffer: seq<Method>) {
    forall i, j :: 0 <= i < j < |buffer| ==> buffer[i].key != buffer[j].key
  }

  /** A key's last definition is what was stored, and an earlier one is not: the earlier one wins,
      because the comparison is with what was stored before the save. */
  predicate Overruled(stored: map<Key, string>, buffer: seq<Method>, i: nat, j: nat) {
    && i < j < |buffer| && buffer[i].key == buffer[j].key
    && !Same(stored, buffer[i]) && Same(stored, buffer[j])
    && forall l :: j < l < |buffer| ==> buffer[l].key != buffer[j].key
  }

  /** The key's last place in the buffer. */
  lemma {:induction false} LastPlace(buffer: seq<Method>, k: Key) returns (j: nat)
    requires k in Keys(buffer)
    ensures j < |buffer| && buffer[j].key == k && (forall l :: j < l < |buffer| ==> buffer[l].key != k)
    ensures k in BufferMap(buffer) && BufferMap(buffer)[k] == buffer[j].source
  {
    if buffer[|buffer| - 1].key == k {
      j := |buffer| - 1;
    } else {
      KeysFront(buffer);
      j := LastPlace(buffer[..|buffer| - 1], k);
    }
  }

  lemma {:induction false} LastWrite(stored: map<Key, string>, buffer: seq<Method>, k: Key) returns (i: nat)
    requires LastWritten(stored, buffer, k).Some?
    ensures i < |buffer| && buffer[i].key == k && !Same(stored, buffer[i])
    ensures LastWritten(stored, buffer, k) == Some(buffer[i].source)
    ensures forall l :: i < l < |buffer| && buffer[l].key == k ==> Same(stored, buffer[l])
  {
    var m := buffer[|buffer| - 1];
    if m.key == k && !Same(stored, m) {
      i := |buffer| - 1;
    } else {
      i := LastWrite(stored, buffer[..|buffer| - 1], k);
    }
  }

  lemma {:induction false} WrittenIfDifferent(stored: map<Key, string>, buffer: seq<Method>, i: nat)
    requires i < |buffer| && !Same(stored, buffer[i])
    ensures LastWritten(stored, buffer, buffer[i].key).Some?
  {
    if i < |buffer| - 1 {
      WrittenIfDifferent(stored, buffer[..|buffer| - 1], i);
    }
  }

  /** One key is saved as the buffer has it exactly when no earlier definition overrules its last. */
  lemma {:induction false} KeySavedIff(rows: Rows, buffer: seq<Method>, k: Key)
    requires k in Keys(buffer)
    ensures k in BufferMap(buffer) && k in Live(Saved(rows, buffer))
    ensures (Live(Saved(rows, buffer))[k] == BufferMap(buffer)[k])
            <==> !exists i: nat, j: nat :: Overruled(Live(rows), buffer, i, j) && buffer[j].key == k
  {
    var stored := Live(rows);
    SavedAt(rows, buffer, k);
    WritesAt(rows, stored, buffer, k);
    var j := LastPlace(buffer, k);
    if LastWritten(stored, buffer, k).Some? {
      var i := LastWrite(stored, buffer, k);
      if Same(stored, buffer[j]) {
        assert i < j && Overruled(stored, buffer, i, j);
      } else {
        assert i == j;
        forall a: nat, b: nat | Overruled(stored, buffer, a, b) ensures buffer[b].key != k {
        }
      }
    } else {
      forall a: nat, b: nat | Overruled(stored, buffer, a, b) ensures buffer[b].key != k {
        WrittenIfDifferent(stored, buffer, a);
      }
    }
  }

  /** After a save the live keys are the buffer's. */
  lemma {:induction false} SavedKeys(rows: Rows, buffer: seq<Method>)
    ensures Live(Saved(rows, buffer)).Keys == Keys(buffer) == BufferMap(buffer).Keys
  {
    BufferMapKeys(buffer);
    var after := Live(Saved(rows, buffer));
    forall k ensures k in after <==> k in Keys(buffer) {
      SavedAt(rows, buffer, k);
    }
    assert after.Keys == Keys(buffer);
  }

  /** The stored methods become the buffer's exactly when no definition is overruled. */
  lemma {:induction false} SavedIsBufferIff(rows: Rows, buffer: seq<Method>)
    ensures (Live(Saved(rows, buffer)) == BufferMap(buffer))
            <==> !exists i: nat, j: nat :: Overruled(Live(rows), buffer, i, j)
  {
    SavedKeys(rows, buffer);
    var after, wanted := Live(Saved(rows, buffer)), BufferMap(buffer);
    if exists i: nat, j: nat :: Overruled(Live(rows), buffer, i, j) {
      var i: nat, j: nat :| Overruled(Live(rows), buffer, i, j);
      assert buffer[j].key in Keys(buffer);
      KeySavedIff(rows, buffer, buffer[j].key);
      assert after[buffer[j].key] != wanted[buffer[j].key];
    } else {
      forall k | k in after.Keys ensures after[k] == wanted[k] {
        KeySavedIff(rows, buffer, k);
      }
      assert after == wanted;
    }
  }

  /** With distinct keys a save stores the buffer. */
  lemma {:induction false} DistinctBufferIsSaved(rows: Rows, buffer: seq<Method>)
    requires Distinct(buffer)
    ensures Live(Saved(rows, buffer)) == BufferMap(buffer)
  {
    SavedIsBufferIff(rows, buffer);
  }

  /** Without them it may not: the second of two definitions is what was stored, the first wins. */
  lemma {:induction false} DuplicateKeySavesTheFirst(k: Key, old_: string, new_: string)
    requires old_ != new_
    ensures var rows: Rows := map[k := Version(1, "", old_, false)];
            var buffer := [Method(k, new_), Method(k, old_)];
            BufferMap(buffer) == map[k := old_] && Live(Saved(rows, buffer)) == map[k := new_]
  {
    var rows: Rows := map[k := Version(1, "", old_, false)];
    var buffer := [Method(k, new_), Method(k, old_)];
    assert buffer[..1] == [Method(k, new_)] && [Method(k, new_)][..0] == [];
    SavedKeys(rows, buffer);
    SavedAt(rows, buffer, k);
    assert buffer[0].key in Keys(buffer);
    assert BufferMap(buffer) == map[k := new_][k := old_];
  }

  /** A method's latest version is untouched (number, category and all) exactly when every definition of
      it in the buffer is the stored one, or it was not live and stays out. */
  lemma {:induction false} IdenticalMethodKeepsItsVersion(rows: Rows, buffer: seq<Method>, k: Key)
    requires k in rows
    ensures (k in Saved(rows, buffer) && Saved(rows, buffer)[k] == rows[k])
            <==> if k in Keys(buffer) then
                   forall i :: 0 <= i < |buffer| && buffer[i].key == k ==> Same(Live(rows), buffer[i])
                 else rows[k].deleted
  {
    var stored := Live(rows);
    WritesAt(rows, stored, buffer, k);
    SavedAt(rows, buffer, k);
    if LastWritten(stored, buffer, k).Some? {
      var i := LastWrite(stored, buffer, k);
      WrittenIsNewer(rows, stored, buffer, k);
    } else {
      forall i | 0 <= i < |buffer| && buffer[i].key == k ensures Same(stored, buffer[i]) {
        if !Same(stored, buffer[i]) {
          WrittenIfDifferent(stored, buffer, i);
        }
      }
    }
  }

  lemma {:induction false} WrittenIsNewer(rows: Rows, stored: map<Key, string>, buffer: seq<Method>, k: Key)
    requires k in rows
    ensures var after := AfterWrites(rows, stored, buffer);
            k in after && after[k].number >= rows[k].number
            && (LastWritten(stored, buffer, k).Some? ==> after[k].number > rows[k].number)
  {
    if buffer != [] {
      WrittenIsNewer(rows, stored, buffer[..|buffer| - 1], k);
    }
  }

  // ---------------------------------------------------------------- what it reports

  function ChangedKeys(stored: map<Key, string>, buffer: seq<Method>): set<Key> {
    set i | 0 <= i < |buffer| && buffer[i].key in stored && stored[buffer[i].key] != buffer[i].source :: buffer[i].key
  }

  function AddedKeys(stored: map<Key, string>, buffer: seq<Method>): set<Key> {
    Keys(buffer) - stored.Keys
  }

  lemma {:induction false} ChangedKeysLast(stored: map<Key, string>, before: seq<Method>, m: Method)
    requires m.key !in Keys(before)
    ensures var last := if m.key in stored && stored[m.key] != m.source then {m.key} else {};
            ChangedKeys(stored, before + [m]) == ChangedKeys(stored, before) + last
    ensures m.key !in ChangedKeys(stored, before)
  {
    var buffer, last := before + [m], if m.key in stored && stored[m.key] != m.source then {m.key} else {};
    assert forall i :: 0 <= i < |before| ==> buffer[i] == before[i];
    assert buffer[|before|] == m;
    forall k | k in ChangedKeys(stored, before) ensures k in ChangedKeys(stored, buffer) {
      var i :| 0 <= i < |before| && before[i].key == k && k in stored && stored[k] != before[i].source;
      assert buffer[i].key == k;
    }
    forall k | k in ChangedKeys(stored, buffer) ensures k in ChangedKeys(stored, before) + last {
      var i :| 0 <= i < |buffer| && buffer[i].key == k && k in stored && stored[k] != buffer[i].source;
    }
  }

  lemma {:induction false} ChangesCount(stored: map<Key, string>, buffer: seq<Method>)
    requires Distinct(buffer)
    ensures Changes(stored, buffer) == |ChangedKeys(stored, buffer)|
  {
    if buffer != [] {
      var before, m := buffer[..|buffer| - 1], buffer[|buffer| - 1];
      LastKeyIsNew(buffer);
      ChangesCount(stored, before);
      ChangedKeysLast(stored, before, m);
      assert buffer == before + [m];
    }
  }

  lemma {:induction false} LastKeyIsNew(buffer: seq<Method>)
    requires Distinct(buffer) && buffer != []
    ensures Distinct(buffer[..|buffer| - 1]) && buffer[|buffer| - 1].key !in Keys(buffer[..|buffer| - 1])
  {
  }

  lemma {:induction false} OneMoreKey(stored: set<Key>, keys: set<Key>, k: Key)
    requires k !in keys
    ensures |keys + {k} - stored| == |keys - stored| + if k in stored then 0 else 1
  {
    if k in stored {
      assert keys + {k} - stored == keys - stored;
    } else {
      assert keys + {k} - stored == (keys - stored) + {k};
    }
  }

  lemma {:induction false} AdditionsCount(stored: map<Key, string>, buffer: seq<Method>)
    requires Distinct(buffer)
    ensures Additions(stored, buffer) == |AddedKeys(stored, buffer)|
  {
    if buffer != [] {
      var before, m := buffer[..|buffer| - 1], buffer[|buffer| - 1];
      LastKeyIsNew(buffer);
      AdditionsCount(stored, before);
      KeysFront(buffer);
      OneMoreKey(stored.Keys, Keys(before), m.key);
    }
  }

  /** The keys at which two maps differ. */
  function Differing(a: map<Key, string>, b: map<Key, string>): set<Key> {
    set k | k in a.Keys + b.Keys && (k !in a || k !in b || a[k] != b[k])
  }

  lemma {:induction false} DisjointSizes(a: set<Key>, b: set<Key>, c: set<Key>)
    requires a !! b && (a + b) !! c
    ensures |a + b + c| == |a| + |b| + |c|
  {
    assert |a + b| == |a| + |b|;
  }

  lemma {:induction false} DiffersWhere(stored: map<Key, string>, buffer: seq<Method>, k: Key)
    requires Distinct(buffer)
    ensures k in ChangedKeys(stored, buffer)
            <==> k in Keys(buffer) && k in stored && k in BufferMap(buffer) && stored[k] != BufferMap(buffer)[k]
  {
    if k in Keys(buffer) {
      var j := LastPlace(buffer, k);
    }
  }

  lemma {:induction false} DifferingParts(stored: map<Key, string>, buffer: seq<Method>)
    requires Distinct(buffer)
    ensures Differing(stored, BufferMap(buffer))
            == ChangedKeys(stored, buffer) + AddedKeys(stored, buffer) + (stored.Keys - Keys(buffer))
  {
    BufferMapKeys(buffer);
    forall k ensures k in Differing(stored, BufferMap(buffer))
                <==> k in ChangedKeys(stored, buffer) + AddedKeys(stored, buffer) + (stored.Keys - Keys(buffer)) {
      DiffersWhere(stored, buffer, k);
    }
  }

  /** With distinct keys the three reported counts add up to the number of keys at which the stored and
      the buffer's methods differ. */
  lemma {:induction false} CountsAddUp(rows: Rows, buffer: seq<Method>)
    requires Distinct(buffer)
    ensures var stored := Live(rows);
            Changes(stored, buffer) + Additions(stored, buffer) + |stored.Keys - Keys(buffer)|
              == |Differing(stored, BufferMap(buffer))|
  {
    var stored := Live(rows);
    ChangesCount(stored, buffer);
    AdditionsCount(stored, buffer);
    DifferingParts(stored, buffer);
    DisjointSizes(ChangedKeys(stored, buffer), AddedKeys(stored, buffer), stored.Keys - Keys(buffer));
  }

  // ---------------------------------------------------------------- saving twice

  /** No key is defined with two different sources. */
  predicate Consistent(buffer: seq<Method>) {
    forall i, j :: 0 <= i < j < |buffer| && buffer[i].key == buffer[j].key ==> buffer[i].source == buffer[j].source
  }

  lemma {:induction false} NoChangesIff(stored: map<Key, string>, buffer: seq<Method>)
    ensures Changes(stored, buffer) == 0 <==>
            forall i :: 0 <= i < |buffer| && buffer[i].key in stored ==> stored[buffer[i].key] == buffer[i].source
  {
    if buffer != [] {
      var before := buffer[..|buffer| - 1];
      NoChangesIff(stored, before);
      assert forall i :: 0 <= i < |before| ==> before[i] == buffer[i];
    }
  }

  lemma {:induction false} NoAdditions(stored: map<Key, string>, buffer: seq<Method>)
    requires Keys(buffer) <= stored.Keys
    ensures Additions(stored, buffer) == 0
  {
    if buffer != [] {
      KeysFront(buffer);
      NoAdditions(stored, buffer[..|buffer| - 1]);
    }
  }

  lemma {:induction false} NothingToWrite(rows: Rows, stored: map<Key, string>, buffer: seq<Method>)
    requires forall i :: 0 <= i < |buffer| ==> Same(stored, buffer[i])
    ensures AfterWrites(rows, stored, buffer) == rows
  {
    if buffer != [] {
      NothingToWrite(rows, stored, buffer[..|buffer| - 1]);
    }
  }

  /** Saving the same buffer again reports no change and writes nothing exactly when no key has two
      different sources in it. */
  lemma {:induction false} SecondSaveIdleIff(rows: Rows, buffer: seq<Method>)
    ensures var once := Saved(rows, buffer);
            && Additions(Live(once), buffer) == 0 && Live(once).Keys - Keys(buffer) == {}
            && (Changes(Live(once), buffer) == 0 <==> Consistent(buffer))
            && (Consistent(buffer) ==> Saved(once, buffer) == once)
  {
    var once := Saved(rows, buffer);
    SavedKeys(rows, buffer);
    NoAdditions(Live(once), buffer);
    NoChangesIff(Live(once), buffer);
    if Consistent(buffer) {
      forall i | 0 <= i < |buffer| ensures Same(Live(once), buffer[i]) {
        SavedSource(rows, buffer, i);
      }
      NothingToWrite(once, Live(once), buffer);
      assert Without(once, {}) == once;
    } else {
      var i, j :| 0 <= i < j < |buffer| && buffer[i].key == buffer[j].key && buffer[i].source != buffer[j].source;
      assert buffer[i].key in Keys(buffer);
    }
  }

  lemma {:induction false} SavedSource(rows: Rows, buffer: seq<Method>, i: nat)
    requires Consistent(buffer) && i < |buffer|
    ensures Same(Live(Saved(rows, buffer)), buffer[i])
  {
    var k := buffer[i].key;
    assert k in Keys(buffer);
    SavedAt(rows, buffer, k);
    if LastWritten(Live(rows), buffer, k).Some? {
      var j := LastWrite(Live(rows), buffer, k);
    } else if !Same(Live(rows), buffer[i]) {
      WrittenIfDifferent(Live(rows), buffer, i);
    }
  }
}
