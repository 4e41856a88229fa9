/** A JavaScript object literal used as a string dictionary
    (`Record<string, string>`), and the `table[key] || fallback` idiom
    every lookup in the views uses. */
module Records {
  import opened Wrappers
  import opened Seqs

  datatype Entry = Entry(key: string, value: string)

  function EntryKey(e: Entry): string {
    e.key
  }

  function Keys(table: seq<Entry>): (ks: seq<string>)
    ensures |ks| == |table|
    ensures forall i :: 0 <= i < |table| ==> ks[i] == table[i].key
  {
    seq(|table|, i requires 0 <= i < |table| => table[i].key)
  }

  /** `table[key]`: the value of the entry with that key, `undefined` when none. */
  function Get(table: seq<Entry>, key: string): (v: Option<string>)
    ensures v.None? <==> key !in Keys(table)
    ensures v.Some? ==> exists i :: 0 <= i < |table| && table[i] == Entry(key, v.value)
  {
    var i := FirstIndex(table, EntryKey, key);
    if i == -1 then None else Some(table[i].value)
  }

  /** `table[key] || fallback`: a missing key or an empty value gives `fallback`. */
  function GetOr(table: seq<Entry>, key: string, fallback: string): (v: string)
    ensures key !in Keys(table) ==> v == fallback
    ensures Get(table, key).Some? && Get(table, key).value != "" ==> v == Get(table, key).value
    ensures Get(table, key).Some? && Get(table, key).value == "" ==> v == fallback
  {
    match Get(table, key)
    case Some(s) => if s != "" then s else fallback
    case None => fallback
  }

  /** No two entries share a key. */
  predicate UniqueKeys(table: seq<Entry>) {
    forall i, j :: 0 <= i < j < |table| ==> table[i].key != table[j].key
  }

  /** A table whose key list has no repeats has unique keys. */
  lemma UniqueKeysFromKeys(table: seq<Entry>)
    requires forall i, j :: 0 <= i < j < |Keys(table)| ==> Keys(table)[i] != Keys(table)[j]
    ensures UniqueKeys(table)
  {
    forall i, j | 0 <= i < j < |table| ensures table[i].key != table[j].key {
      assert Keys(table)[i] == table[i].key && Keys(table)[j] == table[j].key;
    }
  }

  /** In a table whose keys are pairwise distinct, the lookup of the `k`-th
      key is the `k`-th value. */
  lemma GetAt(table: seq<Entry>, k: nat)
    requires k < |table|
    requires UniqueKeys(table)
    ensures Get(table, table[k].key) == Some(table[k].value)
  {
    var i := FirstIndex(table, EntryKey, table[k].key);
    assert EntryKey(table[k]) == table[k].key;
  }

  /** `table[key] || fallback` on a table with unique keys and no empty
      value: the `k`-th key gives the `k`-th value and a missing key gives
      `fallback`; when no value is `fallback` either, `fallback` shows
      exactly for the missing keys. */
  lemma LookupInTable(table: seq<Entry>, key: string, fallback: string)
    requires UniqueKeys(table)
    requires forall k :: 0 <= k < |table| ==> table[k].value != ""
    ensures forall k :: 0 <= k < |table| && key == table[k].key ==> GetOr(table, key, fallback) == table[k].value
    ensures key !in Keys(table) ==> GetOr(table, key, fallback) == fallback
    ensures (forall k :: 0 <= k < |table| ==> table[k].value != fallback) ==>
      (key in Keys(table) <==> GetOr(table, key, fallback) != fallback)
  {
    forall k | 0 <= k < |table| && key == table[k].key
      ensures GetOr(table, key, fallback) == table[k].value
    {
      GetAt(table, k);
    }
    if key in Keys(table) {
      var k :| 0 <= k < |table| && Keys(table)[k] == key;
      GetAt(table, k);
    }
  }
}
