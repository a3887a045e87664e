/** Whole walks through a service that gives every page a token for the next one, whatever it lists. */
module TokenWalk {
  import opened Wrappers
  import opened Keyset
  import opened KeysetWalk

  /** One request of a walk, and the database it met. */
  datatype Visit<D, T> = Visit(db: D, cursor: Option<string>, pageSize: int, page: Page<T>)

  /** How a service orders what it lists: the key of an item, and the keys of everything in a database. */
  datatype Order<!D, !T> = Order(key: T -> Key, rows: D -> set<Key>)

  /** The client starts without a cursor and sends every `next_cursor` back. */
  predicate Linked<D, T>(visits: seq<Visit<D, T>>, i: nat)
    requires i < |visits|
  {
    && (i == 0 ==> visits[i].cursor.None?)
    && (i > 0 ==> visits[i].cursor.Some? && visits[i].cursor == visits[i - 1].page.next)
  }

  predicate Ended<D, T>(visits: seq<Visit<D, T>>) {
    visits != [] && visits[|visits| - 1].page.next.None?
  }

  function ItemsServed<D, T>(visits: seq<Visit<D, T>>): seq<T> {
    if visits == [] then [] else ItemsServed(visits[..|visits| - 1]) + visits[|visits| - 1].page.items
  }

  /** Everything served was on some page. */
  lemma {:induction false} ServedOnPage<D, T>(visits: seq<Visit<D, T>>, a: nat) returns (i: nat, k: nat)
    requires a < |ItemsServed(visits)|
    ensures i < |visits| && k < |visits[i].page.items| && ItemsServed(visits)[a] == visits[i].page.items[k]
  {
    var n := |visits| - 1;
    if a < |ItemsServed(visits[..n])| {
      i, k := ServedOnPage(visits[..n], a);
    } else {
      i, k := n, a - |ItemsServed(visits[..n])|;
    }
  }

  function Limit<D, T>(v: Visit<D, T>): nat {
    if v.pageSize < 0 then 0 else v.pageSize
  }

  function KeysIn<D, T>(o: Order<D, T>, items: seq<T>): (keys: seq<Key>)
    ensures |keys| == |items|
    ensures forall i :: 0 <= i < |items| ==> keys[i] == o.key(items[i])
  {
    seq(|items|, i requires 0 <= i < |items| => o.key(items[i]))
  }

  /** The key after which request `i` continues. */
  function After<D, T>(o: Order<D, T>, visits: seq<Visit<D, T>>, i: nat): Option<Key>
    requires i < |visits|
  {
    if i == 0 || visits[i - 1].page.items == [] then None
    else Some(o.key(visits[i - 1].page.items[|visits[i - 1].page.items| - 1]))
  }

  /** What every answered request of a walk comes to: the page after the last item served, with a token exactly
    * if it is full.
    */
  ghost predicate TurnAt<D, T>(o: Order<D, T>, visits: seq<Visit<D, T>>, i: nat)
    requires i < |visits|
  {
    var v := visits[i];
    && v.pageSize > 0 && (v.page.next.Some? <==> v.pageSize <= |v.page.items|)
    && (i > 0 ==> visits[i - 1].page.next.Some?)
    && FirstAfter(KeysIn(o, v.page.items), o.rows(v.db), After(o, visits, i), v.pageSize)
  }

  ghost predicate IsTokenWalk<D, T>(o: Order<D, T>, visits: seq<Visit<D, T>>) {
    forall i :: 0 <= i < |visits| ==> TurnAt(o, visits, i)
  }

  function RequestOf<D, T>(o: Order<D, T>, v: Visit<D, T>): Request {
    Request(o.rows(v.db), Limit(v), KeysIn(o, v.page.items))
  }

  /** The walk in terms of keys alone. */
  function Requests<D, T>(o: Order<D, T>, visits: seq<Visit<D, T>>): (w: seq<Request>)
    ensures |w| == |visits|
    ensures forall i :: 0 <= i < |visits| ==> w[i] == RequestOf(o, visits[i])
  {
    seq(|visits|, i requires 0 <= i < |visits| => RequestOf(o, visits[i]))
  }

  lemma TurnIsStep<D, T>(o: Order<D, T>, visits: seq<Visit<D, T>>, i: nat)
    requires i < |visits| && TurnAt(o, visits, i) && (i > 0 ==> TurnAt(o, visits, i - 1))
    ensures Step(Requests(o, visits), i)
  {
  }

  /** Sending the tokens back makes every walk a keyset walk, and the missing token ends it. */
  lemma TokensMakeKeysetWalk<D, T>(o: Order<D, T>, visits: seq<Visit<D, T>>)
    requires IsTokenWalk(o, visits)
    ensures IsWalk(Requests(o, visits)) && (Ended(visits) <==> Finished(Requests(o, visits)))
  {
    forall i | 0 <= i < |visits|
      ensures Step(Requests(o, visits), i)
    {
      assert TurnAt(o, visits, i) && (i > 0 ==> TurnAt(o, visits, i - 1));
      TurnIsStep(o, visits, i);
    }
    assert visits != [] ==> TurnAt(o, visits, |visits| - 1);
  }

  lemma {:induction false} ServedKeys<D, T>(o: Order<D, T>, visits: seq<Visit<D, T>>)
    ensures Served(Requests(o, visits)) == KeysIn(o, ItemsServed(visits))
  {
    if visits != [] {
      var n := |visits| - 1;
      ServedKeys(o, visits[..n]);
      assert Requests(o, visits)[..n] == Requests(o, visits[..n]);
    }
  }

  /** Whatever changes between requests, items are served in strictly descending order across pages. */
  lemma ItemsDescend<D, T>(o: Order<D, T>, visits: seq<Visit<D, T>>)
    requires IsTokenWalk(o, visits)
    ensures Descending(KeysIn(o, ItemsServed(visits)))
  {
    TokensMakeKeysetWalk(o, visits);
    ServedDescends(Requests(o, visits));
    ServedKeys(o, visits);
  }

  /** No row is served twice while those that exist keep their keys. */
  lemma NoItemTwice<D, T>(o: Order<D, T>, visits: seq<Visit<D, T>>, a: nat, b: nat)
    requires IsTokenWalk(o, visits) && Stable(Requests(o, visits)) && a < b < |ItemsServed(visits)|
    ensures Before(o.key(ItemsServed(visits)[a]), o.key(ItemsServed(visits)[b]))
    ensures !SameRow(o.key(ItemsServed(visits)[a]), o.key(ItemsServed(visits)[b]))
  {
    TokensMakeKeysetWalk(o, visits);
    ServedKeys(o, visits);
    NoRowTwice(Requests(o, visits), a, b);
  }

  /** A row that is there at every request of a walk that ended, under these keys, is served. */
  lemma NoItemMissed<D, T>(o: Order<D, T>, visits: seq<Visit<D, T>>, keys: seq<Key>) returns (a: nat)
    requires IsTokenWalk(o, visits) && Stable(Requests(o, visits)) && Ended(visits) && |keys| == |visits|
    requires forall i :: 0 <= i < |visits| ==> keys[i] in o.rows(visits[i].db) && SameRow(keys[i], keys[0])
    ensures a < |ItemsServed(visits)| && o.key(ItemsServed(visits)[a]) == keys[0]
  {
    TokensMakeKeysetWalk(o, visits);
    ServedKeys(o, visits);
    a := NoRowMissed(Requests(o, visits), keys);
  }

  /** On a fixed database a walk that ended served the ranking of everything there is. */
  lemma FixedDatabaseRanking<D, T>(o: Order<D, T>, visits: seq<Visit<D, T>>, db: D)
    requires IsTokenWalk(o, visits) && Ended(visits) && forall i :: 0 <= i < |visits| ==> visits[i].db == db
    ensures Ranks(KeysIn(o, ItemsServed(visits)), o.rows(db))
  {
    TokensMakeKeysetWalk(o, visits);
    FixedRowsWalkIsRanking(Requests(o, visits), o.rows(db));
    ServedKeys(o, visits);
  }

  /** On a fixed database of `n` rows and with pages of `p`, a walk never gets beyond `n / p + 1` requests, and the
    * token is missing exactly on that one.
    */
  lemma PageCount<D, T>(o: Order<D, T>, visits: seq<Visit<D, T>>, db: D, p: nat)
    requires IsTokenWalk(o, visits) && visits != []
    requires forall i :: 0 <= i < |visits| ==> visits[i].db == db && visits[i].pageSize == p
    ensures p > 0 && |visits| <= |o.rows(db)| / p + 1
    ensures Ended(visits) <==> |visits| == |o.rows(db)| / p + 1
  {
    TokensMakeKeysetWalk(o, visits);
    WalkLength(Requests(o, visits), o.rows(db), p);
  }
}
