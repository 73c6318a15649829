/** One collection of the document store: its documents in natural
    (insertion) order, each with its own `_id`. `Table` is the keyed view of
    the same collection, a map from id to record. */
module Tables {
  import opened Types

  /** The ids present in a collection. */
  function IdSet<T>(docs: seq<Doc<T>>): set<Id>
  {
    set i | 0 <= i < |docs| :: docs[i].id
  }

  /** `_id` is a primary key: no two documents share one. */
  predicate DistinctIds<T>(docs: seq<Doc<T>>)
  {
    forall i, j :: 0 <= i < j < |docs| ==> docs[i].id != docs[j].id
  }

  /** The position of the first document with this id: the lookup behind
      `findById`, `findByIdAndUpdate` and `findByIdAndDelete`. */
  function IndexOf<T>(docs: seq<Doc<T>>, id: Id): (r: Option<nat>)
    ensures r.Some? ==> r.value < |docs| && docs[r.value].id == id
    ensures r.Some? ==> forall j :: 0 <= j < r.value ==> docs[j].id != id
    ensures r.None? <==> id !in IdSet(docs)
  {
    if docs == [] then None
    else if docs[0].id == id then Some(0)
    else
      var rest := IndexOf(docs[1..], id);
      assert IdSet(docs) == {docs[0].id} + IdSet(docs[1..]) by {
        forall x | x in IdSet(docs) ensures x in {docs[0].id} + IdSet(docs[1..]) {
          var i :| 0 <= i < |docs| && docs[i].id == x;
          if i > 0 { assert docs[1..][i - 1].id == x; }
        }
      }
      match rest
      case None => None
      case Some(k) => Some(k + 1)
  }

  /** The record stored under an id (`findById`), if any. */
  function Find<T>(docs: seq<Doc<T>>, id: Id): (r: Option<T>)
    ensures r.Some? <==> id in IdSet(docs)
    ensures r.Some? ==> exists k :: 0 <= k < |docs| && docs[k].id == id && docs[k].body == r.value
  {
    match IndexOf(docs, id)
    case None => None
    case Some(k) => Some(docs[k].body)
  }

  /** The keyed view of a collection whose ids are distinct. */
  ghost function Table<T>(docs: seq<Doc<T>>): (m: map<Id, T>)
    requires DistinctIds(docs)
    ensures m.Keys == IdSet(docs)
    ensures forall k :: 0 <= k < |docs| ==> m[docs[k].id] == docs[k].body
  {
    map i | 0 <= i < |docs| :: docs[i].id := docs[i].body
  }

  /** With distinct ids, `findById` answers what the keyed view holds. */
  lemma FindInTable<T>(docs: seq<Doc<T>>, id: Id)
    requires DistinctIds(docs)
    ensures Find(docs, id) == if id in Table(docs) then Some(Table(docs)[id]) else None
  {
  }

  /** Inserting a document under a fresh id keeps ids distinct and adds
      exactly that entry to the keyed view. */
  lemma {:induction false} TableAppend<T>(docs: seq<Doc<T>>, d: Doc<T>)
    requires DistinctIds(docs) && d.id !in IdSet(docs)
    ensures DistinctIds(docs + [d])
    ensures IdSet(docs + [d]) == IdSet(docs) + {d.id}
    ensures Table(docs + [d]) == Table(docs)[d.id := d.body]
  {
    var s := docs + [d];
    forall i, j | 0 <= i < j < |s| ensures s[i].id != s[j].id {
      if j == |docs| { assert s[i].id in IdSet(docs); }
    }
    assert IdSet(s) == IdSet(docs) + {d.id} by {
      assert s[|docs|] == d;
      forall x | x in IdSet(docs) ensures x in IdSet(s) {
        var i :| 0 <= i < |docs| && docs[i].id == x;
        assert s[i] == docs[i];
      }
    }
  }

  /** Removing the document at position `k` keeps ids distinct and removes
      exactly its id from the keyed view: every other entry is unchanged. */
  lemma {:induction false} TableRemove<T>(docs: seq<Doc<T>>, k: nat)
    requires DistinctIds(docs) && k < |docs|
    ensures DistinctIds(docs[..k] + docs[k + 1..])
    ensures IdSet(docs[..k] + docs[k + 1..]) == IdSet(docs) - {docs[k].id}
    ensures Table(docs[..k] + docs[k + 1..]) == Table(docs) - {docs[k].id}
  {
    var s := docs[..k] + docs[k + 1..];
    assert forall i :: 0 <= i < |s| ==> s[i] == docs[if i < k then i else i + 1];
    assert IdSet(s) == IdSet(docs) - {docs[k].id} by {
      forall x | x in IdSet(docs) - {docs[k].id} ensures x in IdSet(s) {
        var i :| 0 <= i < |docs| && docs[i].id == x;
        assert s[if i < k then i else i - 1] == docs[i];
      }
    }
  }

  /** Replacing the record at position `k` keeps the ids where they were. */
  lemma ReplaceKeepsIds<T>(docs: seq<Doc<T>>, k: nat, body: T)
    requires k < |docs|
    ensures DistinctIds(docs) ==> DistinctIds(docs[k := Doc(docs[k].id, body)])
    ensures IdSet(docs[k := Doc(docs[k].id, body)]) == IdSet(docs)
  {
    var s := docs[k := Doc(docs[k].id, body)];
    assert forall i :: 0 <= i < |s| ==> s[i].id == docs[i].id;
    forall x | x in IdSet(docs) ensures x in IdSet(s) {
      var i :| 0 <= i < |docs| && docs[i].id == x;
      assert s[i].id == x;
    }
  }

  /** Replacing the record at position `k` keeps ids distinct and changes
      only that id's entry in the keyed view. */
  lemma {:induction false} TableReplace<T>(docs: seq<Doc<T>>, k: nat, body: T)
    requires DistinctIds(docs) && k < |docs|
    ensures DistinctIds(docs[k := Doc(docs[k].id, body)])
    ensures Table(docs[k := Doc(docs[k].id, body)]) == Table(docs)[docs[k].id := body]
  {
    ReplaceKeepsIds(docs, k, body);
    var s := docs[k := Doc(docs[k].id, body)];
    var m, m' := Table(docs), Table(s);
    forall x | x in m' ensures m'[x] == m[docs[k].id := body][x] {
      var i :| 0 <= i < |s| && s[i].id == x;
      if i != k { assert docs[i].id == x; }
    }
  }
}
