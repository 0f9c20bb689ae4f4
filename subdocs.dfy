/** The nested `experience` and `education` arrays of a profile document and
    the array built-ins the handlers apply to them. */
module Subdocs {

  type EntryId = string

  /** One element of a nested array: the id the store generated for it and the
      fields taken from the request. */
  datatype Entry<T> = Entry(id: EntryId, fields: T)

  /** `list.map(item => item.id)`. */
  function Ids<T>(s: seq<Entry<T>>): (r: seq<EntryId>)
    ensures |r| == |s| && forall i :: 0 <= i < |s| ==> r[i] == s[i].id
  {
    seq(|s|, i requires 0 <= i < |s| => s[i].id)
  }

  /** No two entries of the list share an id. */
  ghost predicate DistinctIds<T>(s: seq<Entry<T>>) {
    forall i, j :: 0 <= i < j < |s| ==> s[i].id != s[j].id
  }

  /** `xs.indexOf(x)`: the first position that holds `x`, or -1 when none does. */
  function IndexOf<T(==)>(xs: seq<T>, x: T): (i: int)
    ensures -1 <= i < |xs|
    ensures i == -1 <==> x !in xs
    ensures 0 <= i ==> xs[i] == x && forall j :: 0 <= j < i ==> xs[j] != x
  {
    if xs == [] then -1
    else if xs[0] == x then 0
    else
      var k := IndexOf(xs[1..], x);
      if k == -1 then -1 else k + 1
  }

  /** `s` without its element at position `k`; the others keep their order. */
  function RemoveAt<T>(s: seq<T>, k: nat): (r: seq<T>)
    requires k < |s|
    ensures |r| == |s| - 1
    ensures forall i :: 0 <= i < k ==> r[i] == s[i]
    ensures forall i :: k <= i < |r| ==> r[i] == s[i + 1]
  {
    s[..k] + s[k + 1..]
  }

  /** The array after `s.splice(start, 1)`: a negative `start` counts from the
      end (clamped at 0), a `start` at or past the end removes nothing. */
  function SpliceOne<T>(s: seq<T>, start: int): (r: seq<T>)
    ensures s == [] ==> r == []
    ensures 0 <= start < |s| ==> r == RemoveAt(s, start)
    ensures -|s| <= start < 0 ==> r == RemoveAt(s, |s| + start)
    ensures start < -|s| && s != [] ==> r == RemoveAt(s, 0)
    ensures start >= |s| ==> r == s
  {
    var k := if start < 0 then (if |s| + start < 0 then 0 else |s| + start)
             else (if start < |s| then start else |s|);
    if k < |s| then RemoveAt(s, k) else s
  }

  /** What the delete handlers do to a nested array: look up the index of the
      id with `indexOf` and `splice` one element there. With the id present,
      exactly its first entry goes; with the id absent, `indexOf` gives -1 and
      the LAST entry goes (an empty list stays empty). */
  function RemoveById<T>(s: seq<Entry<T>>, id: EntryId): (r: seq<Entry<T>>)
    ensures id in Ids(s) ==>
      exists k :: 0 <= k < |s| && s[k].id == id && (forall j :: 0 <= j < k ==> s[j].id != id)
                  && r == RemoveAt(s, k)
    ensures id !in Ids(s) ==> r == if s == [] then [] else RemoveAt(s, |s| - 1)
    ensures DistinctIds(s) ==> DistinctIds(r)
    ensures DistinctIds(s) && id in Ids(s) ==> id !in Ids(r)
  {
    var r := SpliceOne(s, IndexOf(Ids(s), id));
    if id in Ids(s) then RemovePresent(s, id); r
    else RemoveAbsent(s, id); r
  }

  lemma RemovePresent<T>(s: seq<Entry<T>>, id: EntryId)
    requires id in Ids(s)
    ensures var r := SpliceOne(s, IndexOf(Ids(s), id));
      && (exists k :: 0 <= k < |s| && s[k].id == id && (forall j :: 0 <= j < k ==> s[j].id != id)
                      && r == RemoveAt(s, k))
      && (DistinctIds(s) ==> DistinctIds(r) && id !in Ids(r))
  {
    var ids := Ids(s);
    var k := IndexOf(ids, id);
    assert ids[k] == id;
    forall j | 0 <= j < k ensures s[j].id != id {
      assert ids[j] == s[j].id;
    }
    RemoveAtDistinct(s, k);
  }

  lemma RemoveAbsent<T>(s: seq<Entry<T>>, id: EntryId)
    requires id !in Ids(s)
    ensures var r := SpliceOne(s, IndexOf(Ids(s), id));
      && r == (if s == [] then [] else RemoveAt(s, |s| - 1))
      && (DistinctIds(s) ==> DistinctIds(r))
  {
    if s != [] {
      RemoveAtDistinct(s, |s| - 1);
    }
  }

  lemma RemoveAtDistinct<T>(s: seq<Entry<T>>, k: nat)
    requires k < |s|
    ensures DistinctIds(s) ==> DistinctIds(RemoveAt(s, k))
  {
    var r := RemoveAt(s, k);
    if DistinctIds(s) {
      forall i, j | 0 <= i < j < |r| ensures r[i].id != r[j].id {
        var i' := if i < k then i else i + 1;
        var j' := if j < k then j else j + 1;
        assert r[i] == s[i'] && r[j] == s[j'];
      }
    }
  }

  /** `s.unshift(e)` with an id not yet in the list keeps the ids distinct. */
  lemma UnshiftDistinct<T>(e: Entry<T>, s: seq<Entry<T>>)
    requires DistinctIds(s) && e.id !in Ids(s)
    ensures DistinctIds([e] + s)
  {
    var r := [e] + s;
    forall i, j | 0 <= i < j < |r| ensures r[i].id != r[j].id {
      if i == 0 {
        assert r[j] == s[j - 1] && Ids(s)[j - 1] == s[j - 1].id;
      } else {
        assert r[i] == s[i - 1] && r[j] == s[j - 1];
      }
    }
  }
}
