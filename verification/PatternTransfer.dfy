/** Export and import of patterns (engramia/memory.py) over a key-value store. */
module PatternTransfer {
  import opened Options

  const PATTERNS_PREFIX := "patterns"
  const EXPORT_VERSION: int := 1

  type Key = string
  type Vector = seq<real>

  /** A stored dictionary; only its task matters here. */
  datatype Data = Data(task: Option<string>, body: string)

  /** A record's key as it may arrive. A false value of another type reads as
      absent; a true one is only found out by the string method called on it. */
  datatype KeyField = NoKey | Text(value: Key) | NotText

  /** The fields of an import record as they may arrive: absent or ill-typed
      versions and data are `None`, an absent version reads as 1. */
  datatype Record = Record(version: Option<int>, key: KeyField, data: Option<Data>)

  function ContainsDots(k: Key): bool {
    |k| >= 2 && (k[..2] == ".." || ContainsDots(k[1..]))
  }

  predicate Importable(r: Record) {
    && r.version.Some? && r.version.value <= EXPORT_VERSION
    && r.key.Text? && r.key.value != "" && r.data.Some?
    && PATTERNS_PREFIX + "/" <= r.key.value && !ContainsDots(r.key.value)
  }

  /** The record gets past the first two checks with a key that is no string, and
      the third one raises. */
  predicate Raises(r: Record) {
    r.version.Some? && r.version.value <= EXPORT_VERSION && r.key.NotText? && r.data.Some?
  }

  lemma {:induction false} ContainsDotsIff(k: Key)
    ensures ContainsDots(k) <==> exists i :: 0 <= i < |k| - 1 && k[i] == '.' && k[i + 1] == '.'
  {
    if |k| < 2 {
    } else {
      ContainsDotsIff(k[1..]);
      assert k[..2] == ".." <==> k[0] == '.' && k[1] == '.';
      assert forall i :: 0 <= i < |k| - 1 ==> k[1..][i] == k[i + 1];
      if i :| 0 <= i < |k| - 1 && k[i] == '.' && k[i + 1] == '.' {
        assert i > 0 ==> k[1..][i - 1] == '.' && k[1..][i] == '.';
      }
    }
  }

  /** What the import takes: format version at most 1, a key under "patterns/"
      without two dots in a row, and a dictionary. */
  lemma ImportableIff(r: Record)
    ensures Importable(r) <==>
              && r.version.Some? && r.version.value <= 1 && r.data.Some? && r.key.Text?
              && "patterns/" <= r.key.value
              && !exists i :: 0 <= i < |r.key.value| - 1 && r.key.value[i] == '.' && r.key.value[i + 1] == '.'
  {
    assert PATTERNS_PREFIX + "/" == "patterns/";
    if r.key.Text? {
      ContainsDotsIff(r.key.value);
    }
  }

  /** The records an import gets through: all, or those before the first that
      raises. */
  function Served(rs: seq<Record>): (r: seq<Record>)
    ensures r <= rs
    ensures forall i :: 0 <= i < |r| ==> !Raises(r[i])
    ensures r != rs ==> Raises(rs[|r|])
  {
    if rs == [] || Raises(rs[0]) then [] else [rs[0]] + Served(rs[1..])
  }

  lemma {:induction false} ServedUpTo(rs: seq<Record>, n: nat)
    requires n <= |rs| && forall i :: 0 <= i < n ==> !Raises(rs[i])
    requires n < |rs| ==> Raises(rs[n])
    ensures Served(rs) == rs[..n]
  {
    if n == 0 {
    } else {
      assert forall i :: 0 <= i < n - 1 ==> rs[1..][i] == rs[i + 1];
      assert rs[..n] == [rs[0]] + rs[1..][..n - 1];
      ServedUpTo(rs[1..], n - 1);
    }
  }

  /** A listing names each key once. Which stored keys it names, and whether what
      it names still loads, is up to the storage. */
  ghost predicate Distinct(keys: seq<Key>) {
    forall i, j :: 0 <= i < j < |keys| ==> keys[i] != keys[j]
  }

  /** What an import leaves behind, and how much it counts. */
  function Imported(m: map<Key, Data>, rs: seq<Record>, overwrite: bool): map<Key, Data> {
    if rs == [] then m else
      var m' := Imported(m, rs[..|rs| - 1], overwrite);
      var r := rs[|rs| - 1];
      if Importable(r) && (overwrite || r.key.value !in m') then m'[r.key.value := r.data.value] else m'
  }

  function ImportCount(m: map<Key, Data>, rs: seq<Record>, overwrite: bool): nat {
    if rs == [] then 0 else
      var m' := Imported(m, rs[..|rs| - 1], overwrite);
      var r := rs[|rs| - 1];
      ImportCount(m, rs[..|rs| - 1], overwrite) + (if Importable(r) && (overwrite || r.key.value !in m') then 1 else 0)
  }

  /** The vector a stored pattern is found by, if it can be computed. */
  function VectorOf(d: Data, embed: Option<string -> Option<Vector>>): Option<Vector> {
    if embed.Some? && d.task.Some? && d.task.value != "" then (embed.value)(d.task.value) else None
  }

  /** The embeddings an import leaves behind. */
  function Embedded(m: map<Key, Data>, e: map<Key, Vector>, rs: seq<Record>, overwrite: bool,
                    embed: Option<string -> Option<Vector>>): map<Key, Vector>
  {
    if rs == [] then e else
      var e' := Embedded(m, e, rs[..|rs| - 1], overwrite, embed);
      var r := rs[|rs| - 1];
      if Importable(r) && (overwrite || r.key.value !in Imported(m, rs[..|rs| - 1], overwrite))
         && VectorOf(r.data.value, embed).Some?
      then e'[r.key.value := VectorOf(r.data.value, embed).value] else e'
  }

  function RecordOf(k: Key, d: Data): Record {
    Record(Some(EXPORT_VERSION), Text(k), Some(d))
  }

  /** The records an export produces for these keys. */
  function Exported(m: map<Key, Data>, keys: seq<Key>): seq<Record> {
    if keys == [] then [] else
      var k := keys[|keys| - 1];
      Exported(m, keys[..|keys| - 1]) + (if k in m then [RecordOf(k, m[k])] else [])
  }

  /** Whether the record at i is stored by an import that got that far. */
  predicate Stored(m: map<Key, Data>, rs: seq<Record>, i: nat, overwrite: bool)
    requires i < |rs|
  {
    Importable(rs[i]) && (overwrite || rs[i].key.value !in Imported(m, rs[..i], overwrite))
  }

  /** What one more record does to storage, count and embeddings. */
  lemma ImportNext(m: map<Key, Data>, e: map<Key, Vector>, rs: seq<Record>, i: nat, overwrite: bool,
                   embed: Option<string -> Option<Vector>>)
    requires i < |rs|
    ensures Imported(m, rs[..i + 1], overwrite) ==
            if Stored(m, rs, i, overwrite) then Imported(m, rs[..i], overwrite)[rs[i].key.value := rs[i].data.value]
            else Imported(m, rs[..i], overwrite)
    ensures ImportCount(m, rs[..i + 1], overwrite) ==
            ImportCount(m, rs[..i], overwrite) + (if Stored(m, rs, i, overwrite) then 1 else 0)
    ensures Embedded(m, e, rs[..i + 1], overwrite, embed) ==
            if Stored(m, rs, i, overwrite) && VectorOf(rs[i].data.value, embed).Some?
            then Embedded(m, e, rs[..i], overwrite, embed)[rs[i].key.value := VectorOf(rs[i].data.value, embed).value]
            else Embedded(m, e, rs[..i], overwrite, embed)
  {
    assert rs[..i + 1][..i] == rs[..i];
  }

  datatype Outcome = Count(imported: nat) | Raised

  class Memory {
    var storage: map<Key, Data>
    var embeddings: map<Key, Vector>

    constructor ()
      ensures storage == map[] && embeddings == map[]
    {
      storage, embeddings := map[], map[];
    }

    /** One record per listed key that loads. */
    method Export(keys: seq<Key>) returns (records: seq<Record>)
      ensures records == Exported(storage, keys)
    {
      records := [];
      for i := 0 to |keys|
        invariant records == Exported(storage, keys[..i])
      {
        assert keys[..i + 1][..i] == keys[..i];
        if keys[i] in storage {
          records := records + [RecordOf(keys[i], storage[keys[i]])];
        }
      }
      assert keys[..|keys|] == keys;
    }

    /** Imports record by record, and stops at a record that raises with what it
        has imported so far in place; `embed` is None when no embedding provider
        is configured and yields None when the provider fails. */
    method ImportData(records: seq<Record>, overwrite: bool, embed: Option<string -> Option<Vector>>)
      returns (outcome: Outcome)
      modifies this
      ensures outcome == if Served(records) == records then Count(ImportCount(old(storage), records, overwrite))
                         else Raised
      ensures outcome.Raised? <==>
                exists i :: 0 <= i < |records| && records[i].key.NotText? && records[i].data.Some?
                            && records[i].version.Some? && records[i].version.value <= 1
      ensures storage == Imported(old(storage), Served(records), overwrite)
      ensures embeddings == Embedded(old(storage), old(embeddings), Served(records), overwrite, embed)
    {
      var imported := 0;
      for i := 0 to |records|
        invariant forall k :: 0 <= k < i ==> !Raises(records[k])
        invariant storage == Imported(old(storage), records[..i], overwrite)
        invariant imported == ImportCount(old(storage), records[..i], overwrite)
        invariant embeddings == Embedded(old(storage), old(embeddings), records[..i], overwrite, embed)
      {
        ImportNext(old(storage), old(embeddings), records, i, overwrite, embed);
        var r := records[i];
        if r.version.None? || r.version.value > EXPORT_VERSION {
          continue;
        }
        if r.key.NoKey? || (r.key.Text? && r.key.value == "") || r.data.None? {
          continue;
        }
        if r.key.NotText? {
          ServedUpTo(records, i);
          return Raised;
        }
        if !(PATTERNS_PREFIX + "/" <= r.key.value) || ContainsDots(r.key.value) {
          continue;
        }
        if !overwrite && r.key.value in storage {
          continue;
        }
        storage := storage[r.key.value := r.data.value];
        if embed.Some? && r.data.value.task.Some? && r.data.value.task.value != "" {
          var v := (embed.value)(r.data.value.task.value);
          if v.Some? {
            embeddings := embeddings[r.key.value := v.value];
          }
        }
        imported := imported + 1;
      }
      assert records[..|records|] == records;
      ServedUpTo(records, |records|);
      return Count(imported);
    }
  }

  // ----- first record wins, last record wins ------------------------------------------

  function Get<V>(m: map<Key, V>, k: Key): Option<V> {
    if k in m then Some(m[k]) else None
  }

  function OrElse<V>(a: Option<V>, b: Option<V>): Option<V> {
    if a.Some? then a else b
  }

  predicate Offers(r: Record, k: Key) {
    Importable(r) && r.key == Text(k)
  }

  /** The first valid record for k, read from the front. */
  function FirstOffer(rs: seq<Record>, k: Key): Option<Data> {
    if rs == [] then None
    else if Offers(rs[0], k) then rs[0].data
    else FirstOffer(rs[1..], k)
  }

  /** The last valid record for k, read from the back. */
  function LastOffer(rs: seq<Record>, k: Key): Option<Data> {
    if rs == [] then None
    else if Offers(rs[|rs| - 1], k) then rs[|rs| - 1].data
    else LastOffer(rs[..|rs| - 1], k)
  }

  lemma {:induction false} FirstOfferAppend(rs: seq<Record>, r: Record, k: Key)
    ensures FirstOffer(rs + [r], k) == OrElse(FirstOffer(rs, k), if Offers(r, k) then r.data else None)
  {
    if rs == [] {
    } else {
      assert (rs + [r])[1..] == rs[1..] + [r];
      FirstOfferAppend(rs[1..], r, k);
    }
  }

  /** Overwriting, the last valid record of each key wins and keys without one
      keep their data. */
  lemma {:induction false} LastWins(m: map<Key, Data>, rs: seq<Record>, k: Key)
    ensures Get(Imported(m, rs, true), k) == OrElse(LastOffer(rs, k), Get(m, k))
  {
    if rs == [] {
    } else {
      LastWins(m, rs[..|rs| - 1], k);
    }
  }

  /** Not overwriting, stored data wins over the first valid record, and that
      over every later one. */
  lemma {:induction false} FirstWins(m: map<Key, Data>, rs: seq<Record>, k: Key)
    ensures Get(Imported(m, rs, false), k) == OrElse(Get(m, k), FirstOffer(rs, k))
  {
    if rs == [] {
    } else {
      var front, r := rs[..|rs| - 1], rs[|rs| - 1];
      assert rs == front + [r];
      FirstWins(m, front, k);
      FirstOfferAppend(front, r, k);
    }
  }

  /** A non-overwriting import reports exactly the number of new patterns. */
  lemma {:induction false} CountsNewPatterns(m: map<Key, Data>, rs: seq<Record>)
    ensures ImportCount(m, rs, false) + |m| == |Imported(m, rs, false)|
  {
    if rs == [] {
    } else {
      CountsNewPatterns(m, rs[..|rs| - 1]);
    }
  }

  function TakenAt(rs: seq<Record>): set<nat> {
    set i: nat | i < |rs| && Importable(rs[i])
  }

  lemma TakenOneMore(front: seq<Record>, r: Record)
    ensures |TakenAt(front + [r])| == |TakenAt(front)| + (if Importable(r) then 1 else 0)
  {
    var rs := front + [r];
    assert rs[|front|] == r && forall i :: 0 <= i < |front| ==> rs[i] == front[i];
    assert TakenAt(rs) == TakenAt(front) + (if Importable(r) then {|front|} else {});
  }

  /** An overwriting import reports every record that it takes. */
  lemma {:induction false} CountsTaken(m: map<Key, Data>, rs: seq<Record>)
    ensures ImportCount(m, rs, true) == |TakenAt(rs)|
  {
    if rs == [] {
      assert TakenAt(rs) == {};
    } else {
      var n := |rs| - 1;
      CountsTaken(m, rs[..n]);
      TakenOneMore(rs[..n], rs[n]);
      assert rs[..n] + [rs[n]] == rs;
    }
  }

  /** The keys after an import: those stored, and those of the records it takes. */
  lemma {:induction false} ImportedKeys(m: map<Key, Data>, rs: seq<Record>, overwrite: bool, k: Key)
    ensures k in Imported(m, rs, overwrite) <==> k in m || exists i :: 0 <= i < |rs| && Offers(rs[i], k)
  {
    if rs == [] {
    } else {
      var n := |rs| - 1;
      ImportedKeys(m, rs[..n], overwrite, k);
      assert forall i :: 0 <= i < n ==> rs[..n][i] == rs[i];
    }
  }

  /** An export writes, for exactly the listed keys that load, their data under
      format version 1. */
  lemma {:induction false} ExportedAre(m: map<Key, Data>, keys: seq<Key>, r: Record)
    ensures r in Exported(m, keys) <==> exists k :: k in keys && k in m && r == Record(Some(1), Text(k), Some(m[k]))
  {
    if keys == [] {
    } else {
      var front, x := keys[..|keys| - 1], keys[|keys| - 1];
      assert keys == front + [x];
      ExportedAre(m, front, r);
      assert forall k :: k in keys <==> k in front || k == x;
    }
  }

  /** A pattern has a vector when a provider is there, the task is a text that is
      not empty, and the provider answers: that answer. */
  lemma VectorIs(d: Data, embed: Option<string -> Option<Vector>>, v: Vector)
    ensures VectorOf(d, embed) == Some(v) <==>
              embed.Some? && d.task.Some? && d.task.value != "" && (embed.value)(d.task.value) == Some(v)
  {}

  lemma {:induction false} NothingToImport(m: map<Key, Data>, rs: seq<Record>)
    requires forall i :: 0 <= i < |rs| && Importable(rs[i]) ==> rs[i].key.value in m
    ensures Imported(m, rs, false) == m && ImportCount(m, rs, false) == 0
  {
    if rs == [] {
    } else {
      NothingToImport(m, rs[..|rs| - 1]);
    }
  }

  lemma {:induction false} ImportedKeysStay(m: map<Key, Data>, rs: seq<Record>, overwrite: bool)
    ensures m.Keys <= Imported(m, rs, overwrite).Keys
    ensures forall i :: 0 <= i < |rs| && Importable(rs[i]) ==> rs[i].key.value in Imported(m, rs, overwrite)
  {
    if rs == [] {
    } else {
      ImportedKeysStay(m, rs[..|rs| - 1], overwrite);
      assert forall i :: 0 <= i < |rs| - 1 ==> rs[..|rs| - 1][i] == rs[i];
    }
  }

  /** Importing the same records again without overwriting does nothing. */
  lemma SecondImportIsIdle(m: map<Key, Data>, rs: seq<Record>, overwrite: bool)
    ensures var m' := Imported(m, rs, overwrite);
            Imported(m', rs, false) == m' && ImportCount(m', rs, false) == 0
  {
    ImportedKeysStay(m, rs, overwrite);
    NothingToImport(Imported(m, rs, overwrite), rs);
  }

  /** The vector of the last valid record for k that has one. */
  function LastVector(rs: seq<Record>, k: Key, embed: Option<string -> Option<Vector>>): Option<Vector> {
    if rs == [] then None
    else
      var front, r := rs[..|rs| - 1], rs[|rs| - 1];
      if Offers(r, k) && VectorOf(r.data.value, embed).Some? then VectorOf(r.data.value, embed)
      else LastVector(front, k, embed)
  }

  /** Overwriting, each key gets the vector of its last valid record that has
      one, and keeps its old vector without such a record. */
  lemma {:induction false} LastVectorWins(m: map<Key, Data>, e: map<Key, Vector>, rs: seq<Record>,
                                          embed: Option<string -> Option<Vector>>, k: Key)
    ensures Get(Embedded(m, e, rs, true, embed), k) == OrElse(LastVector(rs, k, embed), Get(e, k))
  {
    if rs == [] {
    } else {
      LastVectorWins(m, e, rs[..|rs| - 1], embed, k);
    }
  }

  /** Not overwriting, a new pattern gets the vector of its first valid record,
      and every other key keeps its own. */
  lemma {:induction false} FirstVectorWins(m: map<Key, Data>, e: map<Key, Vector>, rs: seq<Record>,
                                           embed: Option<string -> Option<Vector>>, k: Key)
    ensures var offer := FirstOffer(rs, k);
            Get(Embedded(m, e, rs, false, embed), k) ==
            if k in m || offer.None? then Get(e, k) else OrElse(VectorOf(offer.value, embed), Get(e, k))
  {
    if rs == [] {
    } else {
      var front, r := rs[..|rs| - 1], rs[|rs| - 1];
      assert rs == front + [r];
      FirstVectorWins(m, e, front, embed, k);
      FirstWins(m, front, k);
      FirstOfferAppend(front, r, k);
    }
  }

  lemma {:induction false} LastOfferHasVector(rs: seq<Record>, k: Key, embed: Option<string -> Option<Vector>>)
    requires LastOffer(rs, k).Some? && VectorOf(LastOffer(rs, k).value, embed).Some?
    ensures LastVector(rs, k, embed) == VectorOf(LastOffer(rs, k).value, embed)
  {
    if Offers(rs[|rs| - 1], k) {
    } else {
      LastOfferHasVector(rs[..|rs| - 1], k, embed);
    }
  }

  /** An overwritten pattern is found by the data it holds, and not by what it
      held before, if and only if that data has a vector or the key has never had
      one. */
  lemma ImportedAreFindable(m: map<Key, Data>, e: map<Key, Vector>, rs: seq<Record>,
                            embed: Option<string -> Option<Vector>>, k: Key)
    requires LastOffer(rs, k).Some?
    ensures var m', e' := Imported(m, rs, true), Embedded(m, e, rs, true, embed);
            && k in m'
            && (Get(e', k) == VectorOf(m'[k], embed) <==>
                VectorOf(LastOffer(rs, k).value, embed).Some? || (LastVector(rs, k, embed).None? && k !in e))
  {
    LastWins(m, rs, k);
    LastVectorWins(m, e, rs, embed, k);
    if VectorOf(LastOffer(rs, k).value, embed).Some? {
      LastOfferHasVector(rs, k, embed);
    }
  }

  // ----- round trip ------------------------------------------------------------------------

  /** The patterns of a store: what an export lists. */
  function Patterns(m: map<Key, Data>): map<Key, Data> {
    map k | k in m && PATTERNS_PREFIX <= k :: m[k]
  }

  predicate KeyAccepted(k: Key) {
    PATTERNS_PREFIX + "/" <= k && !ContainsDots(k)
  }

  lemma ImportedAppend(m: map<Key, Data>, rs: seq<Record>, r: Record, overwrite: bool)
    ensures var m' := Imported(m, rs, overwrite);
            Imported(m, rs + [r], overwrite) ==
            if Importable(r) && (overwrite || r.key.value !in m') then m'[r.key.value := r.data.value] else m'
  {
    assert (rs + [r])[..|rs|] == rs;
  }

  lemma RecordAccepted(k: Key, d: Data)
    ensures Importable(RecordOf(k, d)) <==> KeyAccepted(k)
  {
    assert PATTERNS_PREFIX + "/" <= k ==> k != "";
  }

  /** The accepted ones of these keys. */
  function AcceptedPart(m: map<Key, Data>, keys: seq<Key>): map<Key, Data> {
    map k | k in keys && k in m && KeyAccepted(k) :: m[k]
  }

  lemma AcceptOneMore(m: map<Key, Data>, front: seq<Key>, x: Key)
    ensures AcceptedPart(m, front + [x]) ==
            if x in m && KeyAccepted(x) then AcceptedPart(m, front)[x := m[x]] else AcceptedPart(m, front)
  {
    assert forall k :: k in front + [x] <==> k in front || k == x;
  }

  lemma {:induction false} ExportedDistinct(m: map<Key, Data>, keys: seq<Key>, overwrite: bool)
    requires Distinct(keys)
    ensures Imported(map[], Exported(m, keys), overwrite) == AcceptedPart(m, keys)
  {
    if keys == [] {
    } else {
      var front, x := keys[..|keys| - 1], keys[|keys| - 1];
      assert keys == front + [x];
      ExportedDistinct(m, front, overwrite);
      AcceptOneMore(m, front, x);
      if x in m {
        RecordAccepted(x, m[x]);
        ImportedAppend(map[], Exported(m, front), RecordOf(x, m[x]), overwrite);
        assert x !in front;
        assert Exported(m, keys) == Exported(m, front) + [RecordOf(x, m[x])];
      } else {
        assert Exported(m, keys) == Exported(m, front);
      }
    }
  }

  lemma {:induction false} ExportNeverRaises(m: map<Key, Data>, keys: seq<Key>)
    ensures forall i :: 0 <= i < |Exported(m, keys)| ==> Exported(m, keys)[i].key.Text?
    ensures Served(Exported(m, keys)) == Exported(m, keys)
  {
    if keys == [] {
    } else {
      ExportNeverRaises(m, keys[..|keys| - 1]);
      ServedUpTo(Exported(m, keys), |Exported(m, keys)|);
    }
  }

  /** Export followed by import into an empty store rebuilds the patterns exactly
      when each of them is listed, lies under "patterns/" and contains no "..": the
      listing asks for the bare prefix, the import for the slash as well. */
  lemma RoundTripIff(m: map<Key, Data>, keys: seq<Key>, overwrite: bool)
    requires Distinct(keys)
    ensures Imported(map[], Served(Exported(m, keys)), overwrite) == Patterns(m) <==>
            forall k :: k in Patterns(m) ==> k in keys && KeyAccepted(k)
  {
    ExportNeverRaises(m, keys);
    ExportedDistinct(m, keys, overwrite);
    AcceptedIsPatternsIff(m, keys);
  }

  lemma AcceptedIsPatternsIff(m: map<Key, Data>, keys: seq<Key>)
    ensures AcceptedPart(m, keys) == Patterns(m) <==> forall k :: k in Patterns(m) ==> k in keys && KeyAccepted(k)
  {
    var back := AcceptedPart(m, keys);
    forall k | k in back
      ensures k in Patterns(m) && back[k] == Patterns(m)[k]
    {
      SlashUnderPrefix(k);
    }
    if back == Patterns(m) {
      forall k | k in Patterns(m)
        ensures k in keys && KeyAccepted(k)
      {
        assert k in back;
      }
    }
    if forall k :: k in Patterns(m) ==> k in keys && KeyAccepted(k) {
      assert back.Keys == Patterns(m).Keys;
    }
  }

  lemma SlashUnderPrefix(k: Key)
    requires KeyAccepted(k)
    ensures PATTERNS_PREFIX <= k
  {
    assert PATTERNS_PREFIX == (PATTERNS_PREFIX + "/")[..|PATTERNS_PREFIX|];
  }

  /** ... and then the import reports their number. */
  lemma RoundTripCount(m: map<Key, Data>, keys: seq<Key>)
    requires Distinct(keys) && forall k :: k in Patterns(m) ==> k in keys && KeyAccepted(k)
    ensures Served(Exported(m, keys)) == Exported(m, keys)
    ensures ImportCount(map[], Exported(m, keys), false) == |Patterns(m)|
  {
    ExportNeverRaises(m, keys);
    RoundTripIff(m, keys, false);
    CountsNewPatterns(map[], Exported(m, keys));
  }

  // ----- what the storages list -----------------------------------------------------------

  /** The database lists every stored key under the prefix. */
  ghost predicate DatabaseLists(keys: seq<Key>, m: map<Key, Data>) {
    Distinct(keys) && forall k :: k in keys <==> k in Patterns(m)
  }

  function LastPart(k: Key): string {
    if k == [] || k[|k| - 1] == '/' then [] else LastPart(k[..|k| - 1]) + [k[|k| - 1]]
  }

  /** The file storage takes files whose name starts with "_" for its own. */
  predicate Hidden(k: Key) {
    LastPart(k) != [] && LastPart(k)[0] == '_'
  }

  lemma {:induction false} LastPartSpec(k: Key) returns (i: nat)
    ensures i <= |k| && LastPart(k) == k[i..] && (i == 0 || k[i - 1] == '/')
    ensures forall j :: i <= j < |k| ==> k[j] != '/'
  {
    if k == [] || k[|k| - 1] == '/' {
      i := |k|;
    } else {
      i := LastPartSpec(k[..|k| - 1]);
    }
  }

  /** The last part of k begins at i. */
  predicate LastPartAt(k: Key, i: nat) {
    i <= |k| && (i == 0 || k[i - 1] == '/') && forall j :: i <= j < |k| ==> k[j] != '/'
  }

  lemma HiddenIff(k: Key)
    ensures Hidden(k) <==> exists i: nat :: LastPartAt(k, i) && i < |k| && k[i] == '_'
  {
    var i := LastPartSpec(k);
    assert LastPartAt(k, i);
    if Hidden(k) {
      assert k[i..][0] == k[i];
    }
    forall n: nat | LastPartAt(k, n)
      ensures n == i
    {}
  }

  ghost predicate FilesList(keys: seq<Key>, m: map<Key, Data>) {
    Distinct(keys) && forall k :: k in keys <==> k in Patterns(m) && !Hidden(k)
  }

  lemma DatabaseRoundTripIff(m: map<Key, Data>, keys: seq<Key>, overwrite: bool)
    requires DatabaseLists(keys, m)
    ensures Imported(map[], Served(Exported(m, keys)), overwrite) == Patterns(m) <==>
            forall k :: k in Patterns(m) ==> KeyAccepted(k)
  {
    RoundTripIff(m, keys, overwrite);
  }

  lemma FilesRoundTripIff(m: map<Key, Data>, keys: seq<Key>, overwrite: bool)
    requires FilesList(keys, m)
    ensures Imported(map[], Served(Exported(m, keys)), overwrite) == Patterns(m) <==>
            forall k :: k in Patterns(m) ==> KeyAccepted(k) && !Hidden(k)
  {
    RoundTripIff(m, keys, overwrite);
  }

  lemma NoSlashIsRefused(rest: string)
    requires rest == "" || rest[0] != '/'
    ensures PATTERNS_PREFIX <= PATTERNS_PREFIX + rest && !KeyAccepted(PATTERNS_PREFIX + rest)
  {
    assert (PATTERNS_PREFIX + rest)[|PATTERNS_PREFIX|..] == rest;
  }

  lemma NoneAccepted(m: map<Key, Data>, k: Key)
    requires !KeyAccepted(k)
    ensures AcceptedPart(m, [k]) == map[]
  {}

  /** Patterns whose backup does not restore: under the bare prefix only. */
  lemma PrefixWithoutSlashIsLost(rest: string, d: Data)
    requires rest == "" || rest[0] != '/'
    ensures var k := PATTERNS_PREFIX + rest;
            && DatabaseLists([k], map[k := d]) && k in Patterns(map[k := d])
            && Imported(map[], Exported(map[k := d], [k]), true) == map[]
  {
    var k := PATTERNS_PREFIX + rest;
    NoSlashIsRefused(rest);
    ExportedDistinct(map[k := d], [k], true);
    NoneAccepted(map[k := d], k);
  }

  /** A pattern whose name starts with "_". */
  function UnderscoreKey(name: string): Key {
    PATTERNS_PREFIX + "/" + (['_'] + name)
  }

  predicate Plain(name: string) {
    forall i :: 0 <= i < |name| ==> name[i] != '.' && name[i] != '/'
  }

  lemma {:induction false} LastPartAfterSlash(dir: Key, name: string)
    requires dir != [] && dir[|dir| - 1] == '/' && Plain(name)
    ensures LastPart(dir + name) == name
  {
    if name == [] {
      assert dir + name == dir;
    } else {
      var n := |name| - 1;
      assert (dir + name)[..|dir| + n] == dir + name[..n];
      LastPartAfterSlash(dir, name[..n]);
    }
  }

  lemma {:induction false} NoDots(k: Key)
    requires forall i :: 0 <= i < |k| ==> k[i] != '.'
    ensures !ContainsDots(k)
  {
    if |k| < 2 {
    } else {
      assert k[..2][0] == k[0];
      NoDots(k[1..]);
    }
  }

  lemma UnderscoreIsAccepted(name: string)
    requires Plain(name)
    ensures KeyAccepted(UnderscoreKey(name)) && Hidden(UnderscoreKey(name))
  {
    NoDots(UnderscoreKey(name));
    LastPartAfterSlash(PATTERNS_PREFIX + "/", ['_'] + name);
  }

  /** Patterns that the import takes and the file storage never lists again. */
  lemma UnderscoreIsLost(name: string, d: Data)
    requires Plain(name)
    ensures var k := UnderscoreKey(name);
            && Imported(map[], [RecordOf(k, d)], true) == map[k := d]
            && FilesList([], map[k := d]) && k in Patterns(map[k := d])
            && Imported(map[], Exported(map[k := d], []), true) == map[]
  {
    var k := UnderscoreKey(name);
    UnderscoreIsAccepted(name);
    SlashUnderPrefix(k);
    RecordAccepted(k, d);
    ImportedAppend(map[], [], RecordOf(k, d), true);
    assert [] + [RecordOf(k, d)] == [RecordOf(k, d)];
  }
}
