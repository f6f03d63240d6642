/** The `external_links` dictionary: each external link mapped to the page it
    was found on, in the order in which links were first recorded. A Python
    dict keeps its keys in insertion order and an assignment to a key already
    present replaces its value in place, so it is modelled as a list of
    entries whose links are pairwise distinct. */
module Ledgers {
  import opened Urls

  datatype Option<T> = None | Some(value: T)

  datatype Entry = Entry(link: Url, source: Url)

  type Ledger = seq<Entry>

  /** The dict's keys, in iteration order. */
  function Keys(l: Ledger): (ks: seq<Url>)
    ensures |ks| == |l|
    ensures forall i :: 0 <= i < |l| ==> ks[i] == l[i].link
  {
    if l == [] then [] else [l[0].link] + Keys(l[1..])
  }

  /** No link appears twice, as in any dict. */
  ghost predicate UniqueKeys(l: Ledger)
  {
    forall i, j :: 0 <= i < j < |l| ==> l[i].link != l[j].link
  }

  /** `external_links.get(k)`. */
  function Get(l: Ledger, k: Url): (r: Option<Url>)
    ensures r.None? <==> k !in Keys(l)
    ensures r.Some? ==> Entry(k, r.value) in l
  {
    if l == [] then None
    else if l[0].link == k then Some(l[0].source)
    else Get(l[1..], k)
  }

  /** `external_links[k] = v`: overwrite the entry of `k` where it stands, or
      append a new entry when `k` is not yet a key. */
  function Put(l: Ledger, k: Url, v: Url): (r: Ledger)
    ensures k in Keys(l) ==> Keys(r) == Keys(l) && |r| == |l|
    ensures k !in Keys(l) ==> r == l + [Entry(k, v)]
    ensures forall e :: e in r ==> e in l || e == Entry(k, v)
  {
    if l == [] then [Entry(k, v)]
    else if l[0].link == k then [Entry(k, v)] + l[1..]
    else [l[0]] + Put(l[1..], k, v)
  }

  /** Writing a key that is present changes only the value at its position
      (in a dict with distinct keys, the first occurrence is the only one). */
  lemma {:induction false} PutExisting(l: Ledger, k: Url, v: Url, i: nat)
    requires i < |l| && l[i].link == k
    requires forall j :: 0 <= j < i ==> l[j].link != k
    ensures Put(l, k, v) == l[i := Entry(k, v)]
  {
    if i > 0 {
      PutExisting(l[1..], k, v, i - 1);
      ConsUpdate(l, i, Entry(k, v));
    }
  }

  lemma ConsUpdate<T>(s: seq<T>, i: nat, e: T)
    requires 0 < i < |s|
    ensures [s[0]] + s[1..][i - 1 := e] == s[i := e]
  {
  }

  /** Writing keeps the links distinct. */
  lemma PutKeepsUnique(l: Ledger, k: Url, v: Url)
    requires UniqueKeys(l)
    ensures UniqueKeys(Put(l, k, v))
  {
    var r := Put(l, k, v);
    if k !in Keys(l) {
      forall i, j | 0 <= i < j < |r| ensures r[i].link != r[j].link {
        if j == |l| {
          assert r[i] == l[i] && Keys(l)[i] == l[i].link;
        }
      }
    } else {
      assert Keys(r) == Keys(l);
      forall i, j | 0 <= i < j < |r| ensures r[i].link != r[j].link {
        assert Keys(r)[i] == Keys(l)[i] && Keys(r)[j] == Keys(l)[j];
      }
    }
  }

  /** Last write wins: after writing `v` under `k`, looking up `k` gives `v`
      and every other key keeps what it had. */
  lemma {:induction false} GetPut(l: Ledger, k: Url, v: Url, j: Url)
    ensures Get(Put(l, k, v), j) == if j == k then Some(v) else Get(l, j)
  {
    if l != [] && l[0].link != k {
      GetPut(l[1..], k, v, j);
    }
  }

  /** Last write wins and leaves no trace of the earlier write: writing `a`
      then `b` under one key is writing `b` alone. */
  lemma {:induction false} OverwriteForgetsEarlier(l: Ledger, k: Url, a: Url, b: Url)
    ensures Put(Put(l, k, a), k, b) == Put(l, k, b)
  {
    if l != [] && l[0].link != k {
      OverwriteForgetsEarlier(l[1..], k, a, b);
      assert Put(l, k, a) == [l[0]] + Put(l[1..], k, a);
      assert Put(l, k, a)[1..] == Put(l[1..], k, a);
    }
  }
}
