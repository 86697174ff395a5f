/**
 * `createEditingHelpers` of scripts/utils.ts: start editing a list item
 * (saving a deep copy of it under its id), cancel editing (restoring the
 * saved copy), and remove an item by id. The deep copy is a value: an
 * item's state is a `Snapshot` of its id, its data and its editing flag.
 * The inline start/cancel of assets/product_edit.js is the same logic.
 */
module Editing {
  import opened Types
  import opened GoUtils

  /** The whole state of an editable item, as `JSON.parse(JSON.stringify(item))` copies it. */
  datatype Snapshot<F> = Snapshot(id: int, data: F, editing: bool)

  /** `startEditing` on values: the backup gets the item's copy, the item starts editing. */
  function Start<F>(backup: map<int, Snapshot<F>>, item: Snapshot<F>): (r: (map<int, Snapshot<F>>, Snapshot<F>))
    ensures r.0.Keys == backup.Keys + {item.id}
    ensures item.id in r.0 && r.0[item.id] == item
    ensures forall k :: k in backup && k != item.id ==> k in r.0 && r.0[k] == backup[k]
    ensures r.1.editing && r.1.id == item.id && r.1.data == item.data
  {
    (backup[item.id := item], item.(editing := true))
  }

  /** Every saved copy is filed under its own id, as `startEditing` files it. */
  ghost predicate KeyedById<F>(backup: map<int, Snapshot<F>>)
  {
    forall k :: k in backup ==> backup[k].id == k
  }

  /**
   * `cancelEditing` on values: with a saved copy the item becomes that copy
   * and the copy is dropped (under the restored item's id, which is the id
   * it was filed under); in every case the item stops editing.
   */
  function Cancel<F>(backup: map<int, Snapshot<F>>, item: Snapshot<F>): (r: (map<int, Snapshot<F>>, Snapshot<F>))
    ensures !r.1.editing
    ensures KeyedById(backup) ==> item.id !in r.0 && r.1.id == item.id && KeyedById(r.0)
    ensures KeyedById(backup) && item.id in backup ==> r.0 == backup - {item.id} && r.1.data == backup[item.id].data
    ensures item.id !in backup ==> r.0 == backup && r.1 == item.(editing := false)
  {
    if item.id in backup then
      var saved := backup[item.id];
      (backup - {saved.id}, saved.(editing := false))
    else
      (backup, item.(editing := false))
  }

  /** Starting to edit files the copy under the item's id, so the backup stays keyed by id. */
  lemma StartKeepsKeyedById<F>(backup: map<int, Snapshot<F>>, item: Snapshot<F>)
    requires KeyedById(backup)
    ensures KeyedById(Start(backup, item).0)
  {
  }

  /**
   * Cancelling right after starting gives back the item as it was (not
   * editing) and leaves the backup as it was apart from the item's id.
   */
  lemma CancelUndoesStart<F>(backup: map<int, Snapshot<F>>, item: Snapshot<F>)
    ensures Cancel(Start(backup, item).0, Start(backup, item).1) == (backup - {item.id}, item.(editing := false))
  {
    var (b, x) := Start(backup, item);
    assert b - {item.id} == backup - {item.id};
  }

  /** Editing one item never touches another item's saved copy. */
  lemma OthersKeepTheirBackup<F>(backup: map<int, Snapshot<F>>, item: Snapshot<F>, other: int)
    requires KeyedById(backup)
    requires other != item.id
    ensures other in Start(backup, item).0 <==> other in backup
    ensures other in Cancel(backup, item).0 <==> other in backup
    ensures other in backup ==> Start(backup, item).0[other] == backup[other] && Cancel(backup, item).0[other] == backup[other]
  {
  }

  /** A list item whose fields the editing helpers overwrite in place. */
  class Editable<F> {
    var id: int
    var data: F
    var editing: bool

    constructor (id: int, data: F)
      ensures this.id == id && this.data == data && !editing
    {
      this.id := id;
      this.data := data;
      editing := false;
    }

    function Snap(): Snapshot<F>
      reads this
    {
      Snapshot(id, data, editing)
    }
  }

  /** The ids of `list`'s items, in list order. */
  function Ids<F>(list: seq<Editable<F>>): (r: seq<int>)
    reads list
    ensures |r| == |list|
    ensures forall j :: 0 <= j < |list| ==> r[j] == list[j].id
  {
    if |list| == 0 then [] else [list[0].id] + Ids(list[1..])
  }

  /** The helper object over one list and its backup record. */
  class EditingHelpers<F> {
    var list: seq<Editable<F>>
    var backup: map<int, Snapshot<F>>

    constructor (list: seq<Editable<F>>, backup: map<int, Snapshot<F>>)
      ensures this.list == list && this.backup == backup
    {
      this.list := list;
      this.backup := backup;
    }

    method StartEditing(item: Editable<F>)
      modifies this`backup, item`editing
      ensures (backup, item.Snap()) == Start(old(backup), old(item.Snap()))
    {
      backup := backup[item.id := item.Snap()];
      item.editing := true;
    }

    method CancelEditing(item: Editable<F>)
      modifies this`backup, item
      ensures (backup, item.Snap()) == Cancel(old(backup), old(item.Snap()))
    {
      if item.id in backup {
        var saved := backup[item.id];
        item.id, item.data, item.editing := saved.id, saved.data, saved.editing;
        backup := backup - {item.id};
      }
      item.editing := false;
    }

    /** `removeItem`: drops the first item with `id`; no item with `id` leaves the list as it was. */
    method RemoveItem(id: int)
      modifies this`list
      ensures var k := FirstIndex(old(Ids(list)), x => x == id);
              (k.None? ==> list == old(list)) &&
              (k.Some? ==> list == old(list)[..k.value] + old(list)[k.value + 1..])
    {
      var i := 0;
      while i < |list|
        invariant 0 <= i <= |list|
        invariant forall j :: 0 <= j < i ==> list[j].id != id
      {
        if list[i].id == id {
          FirstIndexIsLeast(Ids(list), x => x == id, i);
          list := list[..i] + list[i + 1..];
          return;
        }
        i := i + 1;
      }
    }
  }
}
