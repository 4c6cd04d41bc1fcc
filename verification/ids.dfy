/** `gen_id` of `simpleland/utils.py`: a global counter that hands out
  * 1, 2, 3, ... . The global becomes the state of an `IdGen` object that
  * every creator of objects and events shares. */
module Ids {
  import opened Base

  class IdGen {
    /** The module-level `uid`: the last id handed out (0 before any). */
    var uid: nat
    /** Every id handed out so far. */
    ghost var issued: set<Id>

    ghost predicate Valid()
      reads this
    {
      forall i :: i in issued ==> 1 <= i <= uid
    }

    constructor ()
      ensures Valid() && uid == 0 && issued == {}
    {
      uid := 0;
      issued := {};
    }

    /** A fresh id: one more than the last, larger than every id issued
      * before, so ids are strictly increasing starting at 1. */
    method GenId() returns (id: Id)
      requires Valid()
      modifies this
      ensures Valid()
      ensures id == old(uid) + 1 && uid == id && id >= 1
      ensures id !in old(issued) && issued == old(issued) + {id}
      ensures forall j :: j in old(issued) ==> j < id
    {
      uid := uid + 1;
      id := uid;
      issued := issued + {id};
    }
  }
}
