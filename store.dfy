/**
 * One collection of the remote document store: a mapping from document id to
 * fields. Each operation takes `fault`, the environment's choice of whether the
 * returned promise rejects (network or permission failure); a rejected write
 * changes nothing.
 */
module Store {

  /** A document as a query hands it back: its id beside its fields. */
  datatype Doc<T> = Doc(id: string, data: T)

  /** Every entry of `rs` is a live document that passes `keep`, listed with its stored fields. */
  ghost predicate EntriesLive<T>(rs: seq<Doc<T>>, docs: map<string, T>, keep: T -> bool)
  {
    forall i :: 0 <= i < |rs| ==> rs[i].id in docs && docs[rs[i].id] == rs[i].data && keep(rs[i].data)
  }

  /** Every live document that passes `keep` is listed in `rs`. */
  ghost predicate ListsAll<T>(rs: seq<Doc<T>>, docs: map<string, T>, keep: T -> bool)
  {
    forall id :: id in docs && keep(docs[id]) ==> exists i :: 0 <= i < |rs| && rs[i].id == id
  }

  predicate DistinctIds<T>(rs: seq<Doc<T>>)
  {
    forall i, j :: 0 <= i < j < |rs| ==> rs[i].id != rs[j].id
  }

  /**
   * `rs` is an answer to a filtered query over `docs`: every entry is a live
   * document that passes `keep`, every live document that passes `keep` is
   * listed, and no id is listed twice. The order is the store's own.
   */
  ghost predicate IsQueryResult<T>(rs: seq<Doc<T>>, docs: map<string, T>, keep: T -> bool)
  {
    EntriesLive(rs, docs, keep) && ListsAll(rs, docs, keep) && DistinctIds(rs)
  }

  class Collection<T> {
    var docs: map<string, T>

    constructor (initial: map<string, T>)
      ensures docs == initial
    {
      docs := initial;
    }

    /** `addDoc`: stores `data` under the id the store generates (`id`, fresh). */
    method Add(id: string, data: T, fault: bool) returns (ok: bool)
      requires id !in docs
      modifies this
      ensures ok == !fault
      ensures docs == if ok then old(docs)[id := data] else old(docs)
    {
      ok := !fault;
      if ok {
        docs := docs[id := data];
      }
    }

    /** `updateDoc`: rewrites the fields of an existing document; it rejects when there is none. */
    method Update(id: string, patch: T -> T, fault: bool) returns (ok: bool)
      modifies this
      ensures ok == (!fault && id in old(docs))
      ensures docs == if ok then old(docs)[id := patch(old(docs)[id])] else old(docs)
    {
      ok := !fault && id in docs;
      if ok {
        docs := docs[id := patch(docs[id])];
      }
    }

    /** `deleteDoc`: removes the document; deleting an absent id succeeds and changes nothing. */
    method Delete(id: string, fault: bool) returns (ok: bool)
      modifies this
      ensures ok == !fault
      ensures docs == if ok then old(docs) - {id} else old(docs)
    {
      ok := !fault;
      if ok {
        docs := docs - {id};
      }
    }

    /** `getDocs(query(collection, where(...)))`: the documents that pass `keep`, or nothing when the read rejects. */
    method Query(keep: T -> bool, fault: bool) returns (ok: bool, rs: seq<Doc<T>>)
      ensures ok == !fault
      ensures ok ==> IsQueryResult(rs, docs, keep)
      ensures !ok ==> rs == []
    {
      ok, rs := !fault, [];
      if fault {
        return;
      }
      var rest := docs.Keys;
      while rest != {}
        invariant rest <= docs.Keys
        invariant forall i :: 0 <= i < |rs| ==> rs[i].id in docs && rs[i].id !in rest && docs[rs[i].id] == rs[i].data && keep(rs[i].data)
        invariant forall id :: id in docs && id !in rest && keep(docs[id]) ==> exists i :: 0 <= i < |rs| && rs[i].id == id
        invariant forall i, j :: 0 <= i < j < |rs| ==> rs[i].id != rs[j].id
        decreases rest
      {
        var id :| id in rest;
        if keep(docs[id]) {
          ghost var before := rs;
          rs := rs + [Doc(id, docs[id])];
          assert forall i :: 0 <= i < |before| ==> rs[i] == before[i];
          assert rs[|rs| - 1].id == id;
        }
        rest := rest - {id};
      }
    }
  }
}
