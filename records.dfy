/** The record lists of the Clients, Projects and Staff screens: a list of
    records with numeric ids, a search term, and an add/edit modal. The three
    screens share the same handlers: add appends a record under the next free
    id, edit replaces the record being edited under its own id, delete removes
    a record after confirmation, and the modal is opened for adding or editing
    and closed again. */
module Records {
  import Seqs
  import opened Wrappers

  /** The ids of the records, in list order (`list.map((r) => r.id)`). */
  function Ids<T>(s: seq<T>, id: T -> int): (r: seq<int>)
    ensures |r| == |s|
    ensures forall i :: 0 <= i < |s| ==> r[i] == id(s[i])
  {
    seq(|s|, i requires 0 <= i < |s| => id(s[i]))
  }

  /** `Math.max(0, ...ids)`: the largest id, or 0 for an empty list. */
  function MaxId(ids: seq<int>): (m: int)
    ensures m >= 0
    ensures forall i :: 0 <= i < |ids| ==> ids[i] <= m
    ensures m == 0 || m in ids
    decreases |ids|
  {
    if ids == [] then 0
    else
      var rest := MaxId(ids[1..]);
      if ids[0] > rest then ids[0] else rest
  }

  /** The id a new record receives: one more than the largest id, or 1. */
  function NextId<T>(s: seq<T>, id: T -> int): (n: int)
    ensures n >= 1
    ensures forall i :: 0 <= i < |s| ==> id(s[i]) < n
    ensures n == 1 || exists i :: 0 <= i < |s| && id(s[i]) == n - 1
  {
    MaxId(Ids(s, id)) + 1
  }

  /** No two records share an id. */
  predicate UniqueIds<T>(s: seq<T>, id: T -> int)
  {
    forall i, j :: 0 <= i < j < |s| ==> id(s[i]) != id(s[j])
  }

  /** `list.map((r) => r.id === target ? x : r)`. */
  function ReplaceById<T>(s: seq<T>, id: T -> int, target: int, x: T): (r: seq<T>)
    ensures |r| == |s|
  {
    seq(|s|, i requires 0 <= i < |s| => if id(s[i]) == target then x else s[i])
  }

  /** `list.filter((r) => r.id !== target)`. */
  function RemoveById<T>(s: seq<T>, id: T -> int, target: int): seq<T>
  {
    Seqs.Filter(s, (x: T) => id(x) != target)
  }

  /** The number of records with id `target`. */
  function CountId<T>(s: seq<T>, id: T -> int, target: int): nat
    decreases |s|
  {
    if s == [] then 0
    else (if id(s[0]) == target then 1 else 0) + CountId(s[1..], id, target)
  }

  /** Appending a record under `NextId` keeps the ids unique. */
  lemma AppendFreshKeepsUnique<T>(s: seq<T>, id: T -> int, x: T)
    requires UniqueIds(s, id)
    requires id(x) == NextId(s, id)
    ensures UniqueIds(s + [x], id)
  {
    var t := s + [x];
    forall i, j | 0 <= i < j < |t|
      ensures id(t[i]) != id(t[j])
    {
      if j == |s| {
        assert t[i] == s[i];
      } else {
        assert t[i] == s[i] && t[j] == s[j];
      }
    }
  }

  /** Replacing by id with a record that carries the same id changes no id:
      the list has the same length, the same ids in the same places, and every
      record under another id is untouched. */
  lemma ReplaceKeepsIds<T>(s: seq<T>, id: T -> int, target: int, x: T)
    requires id(x) == target
    ensures Ids(ReplaceById(s, id, target, x), id) == Ids(s, id)
    ensures forall i :: 0 <= i < |s| && id(s[i]) != target ==> ReplaceById(s, id, target, x)[i] == s[i]
    ensures forall i :: 0 <= i < |s| && id(s[i]) == target ==> ReplaceById(s, id, target, x)[i] == x
    ensures UniqueIds(s, id) ==> UniqueIds(ReplaceById(s, id, target, x), id)
  {
    var r := ReplaceById(s, id, target, x);
    assert forall i :: 0 <= i < |s| ==> id(r[i]) == id(s[i]);
  }

  /** Removing by id keeps exactly the records under other ids, in their order. */
  lemma RemoveExactly<T>(s: seq<T>, id: T -> int, target: int, x: T)
    ensures x in RemoveById(s, id, target) <==> x in s && id(x) != target
    ensures Seqs.IsSubsequence(RemoveById(s, id, target), s)
  {
    Seqs.FilterMembership(s, (y: T) => id(y) != target, x);
    Seqs.FilterIsSubsequence(s, (y: T) => id(y) != target);
  }

  /** Removing by id drops one record per occurrence of that id, so with
      unique ids exactly one record goes when the id is present and none
      otherwise. */
  lemma {:induction false} RemoveCount<T>(s: seq<T>, id: T -> int, target: int)
    ensures |RemoveById(s, id, target)| + CountId(s, id, target) == |s|
    ensures UniqueIds(s, id) ==> CountId(s, id, target) <= 1
    ensures CountId(s, id, target) == 0 <==> target !in Ids(s, id)
    decreases |s|
  {
    if s != [] {
      RemoveCount(s[1..], id, target);
      assert Ids(s, id) == [id(s[0])] + Ids(s[1..], id);
      if UniqueIds(s, id) {
        assert UniqueIds(s[1..], id);
        if id(s[0]) == target {
          forall k | 0 <= k < |s[1..]|
            ensures Ids(s[1..], id)[k] != target
          {
            assert s[1..][k] == s[k + 1];
          }
          assert target !in Ids(s[1..], id);
        }
      }
    }
  }

  /** Removing by id never makes two ids equal. */
  lemma {:induction false} RemoveKeepsUnique<T>(s: seq<T>, id: T -> int, target: int)
    requires UniqueIds(s, id)
    ensures UniqueIds(RemoveById(s, id, target), id)
    decreases |s|
  {
    if s != [] {
      var p := (y: T) => id(y) != target;
      assert UniqueIds(s[1..], id);
      RemoveKeepsUnique(s[1..], id, target);
      var rest := RemoveById(s[1..], id, target);
      if p(s[0]) {
        var r := [s[0]] + rest;
        assert RemoveById(s, id, target) == r;
        forall i, j | 0 <= i < j < |r|
          ensures id(r[i]) != id(r[j])
        {
          if i == 0 {
            Seqs.FilterMembership(s[1..], p, r[j]);
            var k :| 0 <= k < |s[1..]| && s[1..][k] == r[j];
            assert id(s[k + 1]) != id(s[0]);
          } else {
            assert r[i] == rest[i - 1] && r[j] == rest[j - 1];
          }
        }
      }
    }
  }

  /** The state of one record screen. `withId` is `{ ...data, id }`. */
  class RecordList<T(!new)> {
    const id: T -> int
    const withId: (T, int) -> T
    var items: seq<T>
    var searchTerm: string
    var isModalOpen: bool
    var editing: Option<T>

    /** Ids stay unique, and a record is only being edited while the modal is open. */
    ghost predicate Valid()
      reads this
    {
      && UniqueIds(items, id)
      && (editing.Some? ==> isModalOpen)
      && (forall x, n :: id(withId(x, n)) == n)
    }

    /** The screen as first rendered: the seed records, an empty search, the modal closed. */
    constructor (seed: seq<T>, id: T -> int, withId: (T, int) -> T)
      requires UniqueIds(seed, id)
      requires forall x, n :: id(withId(x, n)) == n
      ensures Valid()
      ensures this.id == id && this.withId == withId
      ensures items == seed && searchTerm == "" && !isModalOpen && editing == None
    {
      this.id := id;
      this.withId := withId;
      items := seed;
      searchTerm := "";
      isModalOpen := false;
      editing := None;
    }

    /** The search box's `onChange`. */
    method OnSearchChange(value: string)
      modifies this
      ensures searchTerm == value
      ensures items == old(items) && isModalOpen == old(isModalOpen) && editing == old(editing)
    {
      searchTerm := value;
    }

    /** `openAddModal` (Clients): nothing is being edited and the modal opens. */
    method OpenAddModal()
      requires Valid()
      modifies this
      ensures Valid()
      ensures isModalOpen && editing == None
      ensures items == old(items) && searchTerm == old(searchTerm)
    {
      editing := None;
      isModalOpen := true;
    }

    /** The Add button of Projects and Staff: it only opens the modal. */
    method OpenModal()
      requires Valid()
      modifies this
      ensures Valid()
      ensures isModalOpen && editing == old(editing)
      ensures items == old(items) && searchTerm == old(searchTerm)
    {
      isModalOpen := true;
    }

    /** `openEditModal(record)`: that record is being edited and the modal opens. */
    method OpenEditModal(r: T)
      requires Valid()
      modifies this
      ensures Valid()
      ensures isModalOpen && editing == Some(r)
      ensures items == old(items) && searchTerm == old(searchTerm)
    {
      editing := Some(r);
      isModalOpen := true;
    }

    /** `closeModal`: the modal closes and nothing is being edited. */
    method CloseModal()
      requires Valid()
      modifies this
      ensures Valid()
      ensures !isModalOpen && editing == None
      ensures items == old(items) && searchTerm == old(searchTerm)
    {
      isModalOpen := false;
      editing := None;
    }

    /** Add: the new record gets the next free id and is appended. */
    method Add(data: T)
      requires Valid()
      modifies this
      ensures Valid()
      ensures items == old(items) + [withId(data, NextId(old(items), id))]
      ensures forall i :: 0 <= i < |old(items)| ==> id(old(items)[i]) < id(items[|items| - 1])
      ensures searchTerm == old(searchTerm) && isModalOpen == old(isModalOpen) && editing == old(editing)
    {
      var n := NextId(items, id);
      AppendFreshKeepsUnique(items, id, withId(data, n));
      items := items + [withId(data, n)];
    }

    /** Edit: with a record being edited, every record under its id is replaced
        by the submitted data under that same id and editing ends; with none,
        nothing happens. */
    method Edit(data: T)
      requires Valid()
      modifies this
      ensures Valid()
      ensures old(editing).Some? ==>
        var target := id(old(editing).value);
        && items == ReplaceById(old(items), id, target, withId(data, target))
        && editing == None
      ensures old(editing).None? ==> items == old(items) && editing == old(editing)
      ensures searchTerm == old(searchTerm) && isModalOpen == old(isModalOpen)
    {
      match editing
      case Some(e) =>
        var target := id(e);
        ReplaceKeepsIds(items, id, target, withId(data, target));
        items := ReplaceById(items, id, target, withId(data, target));
        editing := None;
      case None =>
    }

    /** Delete: after confirmation, the records with that id are removed and
        the others keep their order; without it, nothing changes. */
    method Delete(target: int, confirmed: bool)
      requires Valid()
      modifies this
      ensures Valid()
      ensures items == if confirmed then RemoveById(old(items), id, target) else old(items)
      ensures searchTerm == old(searchTerm) && isModalOpen == old(isModalOpen) && editing == old(editing)
    {
      if confirmed {
        RemoveKeepsUnique(items, id, target);
        items := RemoveById(items, id, target);
      }
    }

    /** Submitting the modal: edit when a record is being edited, add
        otherwise, then the modal closes and nothing is being edited. */
    method Submit(data: T)
      requires Valid()
      modifies this
      ensures Valid()
      ensures old(editing).Some? ==>
        var target := id(old(editing).value);
        items == ReplaceById(old(items), id, target, withId(data, target))
      ensures old(editing).None? ==> items == old(items) + [withId(data, NextId(old(items), id))]
      ensures !isModalOpen && editing == None && searchTerm == old(searchTerm)
    {
      if editing.Some? {
        Edit(data);
      } else {
        Add(data);
      }
      CloseModal();
    }
  }
}
