/**
 * org.bukkit.inventory.Inventory, as the slots it holds; an empty slot is null.
 */
module BukkitInventory {
  import opened JavaLang

  /** A slot array of the given size with every slot empty. */
  function Cleared<Item>(size: nat): (r: seq<Option<Item>>)
    ensures |r| == size
    ensures forall i | 0 <= i < size :: r[i].None?
  {
    seq(size, _ => None)
  }

  class Inventory<Item> {
    var contents: seq<Option<Item>>

    constructor (contents: seq<Option<Item>>)
      ensures this.contents == contents
    {
      this.contents := contents;
    }

    /** Inventory.clear: every slot becomes empty; the size stays. */
    method Clear()
      modifies this
      ensures contents == Cleared(|old(contents)|)
    {
      contents := Cleared(|contents|);
    }

    /** Inventory.getContents: a new array holding a copy of the slots. */
    method GetContents() returns (a: array<Option<Item>>)
      ensures fresh(a)
      ensures a[..] == contents
    {
      a := new Option<Item>[|contents|](i requires 0 <= i < |contents| reads this => contents[i]);
    }

    /**
     * Inventory.setContents: IllegalArgumentException when given more items
     * than the inventory has slots; otherwise the items fill the first slots
     * and the remaining slots become empty.
     */
    method SetContents(items: seq<Option<Item>>) returns (r: Result<()>)
      modifies this
      ensures |items| > |old(contents)| ==> r == Err(IllegalArgumentException) && contents == old(contents)
      ensures |items| <= |old(contents)| ==> r == Ok(()) && contents == items + Cleared(|old(contents)| - |items|)
    {
      if |items| > |contents| {
        return Err(IllegalArgumentException);
      }
      contents := items + Cleared(|contents| - |items|);
      r := Ok(());
    }
  }
}
