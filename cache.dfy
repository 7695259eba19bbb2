/**
 * The values behind the entry cache (source/main.c:33-39, 260-302): a
 * directory entry, the directory test on its type byte, and the slot table as
 * a sequence of optional entries, with the functions that specify filling it.
 */
module Cache {
  import opened Options

  /**
   * The directory bit of `d_type`. The header that defines it is not part of
   * this model; 4 is the conventional value.
   */
  const DT_DIR: bv8 := 4

  /** A cached entry: its type byte and its name. */
  datatype Entry = Entry(dType: bv8, name: string)

  /** The activate test: the type has the directory bit. */
  predicate HasDirBit(t: bv8) {
    t & DT_DIR != 0
  }

  /** The index of the lowest empty slot, or `|s|` when every slot is filled. */
  function FirstEmpty(s: seq<Option<Entry>>): (k: nat)
    ensures k <= |s|
    ensures forall j :: 0 <= j < k ==> s[j].Some?
    ensures k < |s| ==> s[k].None?
  {
    if s == [] || s[0].None? then 0 else 1 + FirstEmpty(s[1..])
  }

  /** The table after one `addCurDirFile(e)`. */
  function Added(s: seq<Option<Entry>>, e: Entry): (r: seq<Option<Entry>>)
    ensures |r| == |s|
    // a full table is left alone
    ensures (forall j :: 0 <= j < |s| ==> s[j].Some?) ==> r == s
    // otherwise only the lowest empty slot changes, and it receives the entry
    ensures forall k :: 0 <= k < |s| && s[k].None? && (forall j :: 0 <= j < k ==> s[j].Some?) ==>
      r == s[k := Some(e)]
  {
    var k := FirstEmpty(s);
    if k < |s| then s[k := Some(e)] else s
  }

  /** An `n`-slot table holding `fill` from slot 0: surplus entries dropped, missing ones left empty. */
  function Loaded(n: nat, fill: seq<Entry>): (s: seq<Option<Entry>>)
    ensures |s| == n
    // slot i is filled exactly when the second pass reached it, and then holds its i-th entry
    ensures forall i :: 0 <= i < n ==> (s[i].Some? <==> i < |fill|)
    ensures forall i :: 0 <= i < n && s[i].Some? ==> s[i].value == fill[i]
  {
    seq(n, i requires 0 <= i < n => if i < |fill| then Some(fill[i]) else None)
  }

  /** Adding one more entry to a table loaded from `fill` gives the table loaded from `fill + [e]`. */
  lemma AddedLoaded(n: nat, fill: seq<Entry>, e: Entry)
    ensures Added(Loaded(n, fill), e) == Loaded(n, fill + [e])
  {
  }
}
