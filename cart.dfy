/** The customer's cart of extras: one line per catalog item, keyed `extra:<id>`. */
module Cart {
  import opened Catalog
  import opened Seqs

  datatype CartLine = CartLine(key: string, name: string, price: real, qty: int)

  function LineKey(itemId: string): string {
    "extra:" + itemId
  }

  lemma LineKeyInjective(a: string, b: string)
    requires LineKey(a) == LineKey(b)
    ensures a == b
  {
    assert a == LineKey(a)[6..];
    assert b == LineKey(b)[6..];
  }

  predicate HasKey(cart: seq<CartLine>, key: string) {
    exists i :: 0 <= i < |cart| && cart[i].key == key
  }

  predicate UniqueKeys(cart: seq<CartLine>) {
    forall i, j :: 0 <= i < j < |cart| ==> cart[i].key != cart[j].key
  }

  predicate AllPositive(cart: seq<CartLine>) {
    forall i :: 0 <= i < |cart| ==> cart[i].qty > 0
  }

  /** The quantity of the first line with that key (`find(...)?.qty || 0`). */
  function QtyAt(cart: seq<CartLine>, key: string): int
    decreases |cart|
  {
    if cart == [] then 0
    else if cart[0].key == key then cart[0].qty
    else QtyAt(cart[1..], key)
  }

  /** `qtyOf(itemId)`: 0 for an item with no line. */
  function QtyOf(cart: seq<CartLine>, itemId: string): (r: int)
    ensures r != 0 ==> HasKey(cart, LineKey(itemId))
  {
    if !HasKey(cart, LineKey(itemId)) then QtyAtAbsent(cart, LineKey(itemId)); QtyAt(cart, LineKey(itemId))
    else QtyAt(cart, LineKey(itemId))
  }

  /** A key added at the end is the one key the cart gains. */
  lemma HasKeyAppend(cart: seq<CartLine>, line: CartLine)
    ensures forall k :: HasKey(cart + [line], k) <==> HasKey(cart, k) || k == line.key
  {
    var r := cart + [line];
    assert r[|cart|] == line;
    forall k | HasKey(cart, k) ensures HasKey(r, k) {
      var i :| 0 <= i < |cart| && cart[i].key == k;
      assert r[i] == cart[i];
    }
  }

  function Bump(cart: seq<CartLine>, key: string, delta: int): (r: seq<CartLine>)
    ensures |r| == |cart|
    ensures forall i :: 0 <= i < |cart| ==>
      r[i] == if cart[i].key == key then cart[i].(qty := cart[i].qty + delta) else cart[i]
  {
    seq(|cart|, i requires 0 <= i < |cart| =>
      if cart[i].key == key then cart[i].(qty := cart[i].qty + delta) else cart[i])
  }

  /** `addOne(it)`: one more of an item already in the cart, else a new line with quantity 1 at the end. */
  function AddOne(cart: seq<CartLine>, it: Item): (r: seq<CartLine>)
    ensures |r| == |cart| + (if HasKey(cart, LineKey(it.id)) then 0 else 1)
    ensures forall k :: HasKey(r, k) <==> HasKey(cart, k) || k == LineKey(it.id)
    ensures !HasKey(cart, LineKey(it.id)) ==> r == cart + [CartLine(LineKey(it.id), it.name, it.price, 1)]
    ensures HasKey(cart, LineKey(it.id)) ==> forall i :: 0 <= i < |cart| ==>
      r[i] == if cart[i].key == LineKey(it.id) then cart[i].(qty := cart[i].qty + 1) else cart[i]
  {
    var key := LineKey(it.id);
    if HasKey(cart, key) then Bump(cart, key, 1)
    else HasKeyAppend(cart, CartLine(key, it.name, it.price, 1)); cart + [CartLine(key, it.name, it.price, 1)]
  }

  function Decrement(cart: seq<CartLine>, key: string): (r: seq<CartLine>)
    ensures |r| == |cart|
    ensures forall i :: 0 <= i < |cart| ==>
      r[i] == if cart[i].key == key then cart[i].(qty := if cart[i].qty - 1 < 0 then 0 else cart[i].qty - 1) else cart[i]
  {
    seq(|cart|, i requires 0 <= i < |cart| =>
      if cart[i].key == key then cart[i].(qty := if cart[i].qty - 1 < 0 then 0 else cart[i].qty - 1) else cart[i])
  }

  /** `filter(x => x.qty > 0)`: the lines with a positive quantity, in order. */
  function Positive(cart: seq<CartLine>): (r: seq<CartLine>)
    ensures forall l :: l in r <==> l in cart && l.qty > 0
    ensures |r| <= |cart| && AllPositive(r)
  {
    var r := Filter(cart, (l: CartLine) => l.qty > 0);
    assert forall i :: 0 <= i < |r| ==> r[i] in r;
    r
  }

  /** `removeOne(it)`: one fewer (never below 0), then every line at 0 is dropped. */
  function RemoveOne(cart: seq<CartLine>, it: Item): (r: seq<CartLine>)
    ensures |r| <= |cart| && AllPositive(r)
  {
    Positive(Decrement(cart, LineKey(it.id)))
  }

  /** `delLine(key)`: `filter(x => x.key !== key)`, the other lines in order. */
  function DelLine(cart: seq<CartLine>, key: string): (r: seq<CartLine>)
    ensures forall l :: l in r <==> l in cart && l.key != key
  {
    Filter(cart, (l: CartLine) => l.key != key)
  }

  /** The shape every cart the client builds has: one line per key, each with a positive quantity. */
  predicate WellFormed(cart: seq<CartLine>) {
    UniqueKeys(cart) && AllPositive(cart)
  }

  // ----- properties -----

  lemma {:induction false} QtyAtBump(cart: seq<CartLine>, key: string, other: string, delta: int)
    requires HasKey(cart, key)
    ensures QtyAt(Bump(cart, key, delta), other) == QtyAt(cart, other) + (if other == key then delta else 0)
    decreases |cart|
  {
    var b := Bump(cart, key, delta);
    if cart[0].key != key {
      var i :| 0 <= i < |cart| && cart[i].key == key;
      assert cart[1..][i - 1].key == key;
      assert b[0] == cart[0];
      assert b[1..] == Bump(cart[1..], key, delta);
      QtyAtBump(cart[1..], key, other, delta);
      if cart[0].key != other {
        assert QtyAt(b, other) == QtyAt(b[1..], other);
        assert QtyAt(cart, other) == QtyAt(cart[1..], other);
      }
    } else if other != key {
      QtyAtMissing(cart, other, key, delta);
    }
  }

  lemma {:induction false} QtyAtMissing(cart: seq<CartLine>, other: string, key: string, delta: int)
    requires other != key
    ensures QtyAt(Bump(cart, key, delta), other) == QtyAt(cart, other)
    decreases |cart|
  {
    if cart != [] {
      assert Bump(cart, key, delta)[1..] == Bump(cart[1..], key, delta);
      QtyAtMissing(cart[1..], other, key, delta);
    }
  }

  lemma {:induction false} QtyAtAppend(cart: seq<CartLine>, line: CartLine, key: string)
    requires !HasKey(cart, line.key)
    ensures QtyAt(cart + [line], key) == if HasKey(cart, key) then QtyAt(cart, key) else if key == line.key then line.qty else 0
    decreases |cart|
  {
    if cart == [] {
      assert [line][1..] == [];
    } else {
      assert (cart + [line])[1..] == cart[1..] + [line];
      if cart[0].key != key {
        if HasKey(cart, key) {
          var i :| 0 <= i < |cart| && cart[i].key == key;
          assert cart[1..][i - 1].key == key;
        }
        if HasKey(cart[1..], key) {
          var i :| 0 <= i < |cart[1..]| && cart[1..][i].key == key;
          assert cart[i + 1].key == key;
        }
        QtyAtAppend(cart[1..], line, key);
      }
    }
  }

  lemma {:induction false} QtyAtAbsent(cart: seq<CartLine>, key: string)
    requires !HasKey(cart, key)
    ensures QtyAt(cart, key) == 0
    decreases |cart|
  {
    if cart != [] {
      QtyAtAbsent(cart[1..], key);
    }
  }

  /** Adding one raises that item's quantity by exactly one and leaves every other item's. */
  lemma AddOneQty(cart: seq<CartLine>, it: Item, otherId: string)
    ensures QtyOf(AddOne(cart, it), it.id) == QtyOf(cart, it.id) + 1
    ensures otherId != it.id ==> QtyOf(AddOne(cart, it), otherId) == QtyOf(cart, otherId)
  {
    var key := LineKey(it.id);
    if otherId != it.id {
      if LineKey(otherId) == key { LineKeyInjective(otherId, it.id); }
    }
    if HasKey(cart, key) {
      QtyAtBump(cart, key, key, 1);
      QtyAtBump(cart, key, LineKey(otherId), 1);
    } else {
      QtyAtAbsent(cart, key);
      QtyAtAppend(cart, CartLine(key, it.name, it.price, 1), key);
      QtyAtAppend(cart, CartLine(key, it.name, it.price, 1), LineKey(otherId));
      if !HasKey(cart, LineKey(otherId)) { QtyAtAbsent(cart, LineKey(otherId)); }
    }
  }

  /** Adding one never creates a second line for a key: unique keys stay unique. */
  lemma AddOneKeepsKeysUnique(cart: seq<CartLine>, it: Item)
    requires UniqueKeys(cart)
    ensures UniqueKeys(AddOne(cart, it))
  {
  }

  /** After removing one, every remaining line has a positive quantity, whatever the cart was. */
  lemma RemoveOnePositive(cart: seq<CartLine>, it: Item)
    ensures AllPositive(RemoveOne(cart, it))
    ensures forall l :: l in RemoveOne(cart, it) ==> l in cart || (l.key == LineKey(it.id) && l.qty > 0)
  {
    var d := Decrement(cart, LineKey(it.id));
    forall l | l in RemoveOne(cart, it) ensures l in cart || (l.key == LineKey(it.id) && l.qty > 0) {
      var i :| 0 <= i < |d| && d[i] == l;
      assert d[i] == if cart[i].key == LineKey(it.id) then cart[i].(qty := if cart[i].qty - 1 < 0 then 0 else cart[i].qty - 1) else cart[i];
    }
  }

  lemma {:induction false} QtyAtPositiveDecrement(cart: seq<CartLine>, key: string)
    requires UniqueKeys(cart) && AllPositive(cart)
    ensures QtyAt(Positive(Decrement(cart, key)), key) == (if QtyAt(cart, key) > 0 then QtyAt(cart, key) - 1 else 0)
    decreases |cart|
  {
    if cart != [] {
      var d := Decrement(cart, key);
      assert d[1..] == Decrement(cart[1..], key);
      var rest := Positive(d[1..]);
      if cart[0].key != key {
        assert UniqueKeys(cart[1..]) && AllPositive(cart[1..]);
        QtyAtPositiveDecrement(cart[1..], key);
        assert Positive(d) == [cart[0]] + rest;
        assert ([cart[0]] + rest)[1..] == rest;
      } else {
        assert !HasKey(cart[1..], key) by {
          forall j | 0 <= j < |cart[1..]| ensures cart[1..][j].key != key {
            assert cart[j + 1].key != cart[0].key;
          }
        }
        NoKeyAfterPositiveDecrement(cart[1..], key);
        QtyAtAbsent(rest, key);
        if d[0].qty > 0 {
          assert Positive(d) == [d[0]] + rest;
        } else {
          assert Positive(d) == rest;
        }
      }
    }
  }

  lemma NoKeyAfterPositiveDecrement(cart: seq<CartLine>, key: string)
    requires !HasKey(cart, key)
    ensures !HasKey(Positive(Decrement(cart, key)), key)
  {
    var r := Positive(Decrement(cart, key));
    assert forall i :: 0 <= i < |r| ==> r[i] in r;
  }

  /** With unique keys and positive quantities, removing one lowers that item's quantity by one (to 0 at least). */
  lemma RemoveOneQty(cart: seq<CartLine>, it: Item)
    requires UniqueKeys(cart) && AllPositive(cart)
    ensures QtyOf(RemoveOne(cart, it), it.id) == if QtyOf(cart, it.id) > 0 then QtyOf(cart, it.id) - 1 else 0
  {
    QtyAtPositiveDecrement(cart, LineKey(it.id));
  }

  /** Deleting a line leaves no line with that key and every other line untouched. */
  lemma DelLineOnlyThatKey(cart: seq<CartLine>, key: string)
    ensures !HasKey(DelLine(cart, key), key)
    ensures forall l :: l in cart && l.key != key ==> l in DelLine(cart, key)
  {
    var r := DelLine(cart, key);
    assert forall i :: 0 <= i < |r| ==> r[i] in r;
  }

  /** Filtering never creates a second line for a key. */
  lemma {:induction false} FilterKeepsUniqueKeys(cart: seq<CartLine>, p: CartLine -> bool)
    requires UniqueKeys(cart)
    ensures UniqueKeys(Filter(cart, p))
    decreases |cart|
  {
    if cart != [] {
      var tail := cart[1..];
      assert UniqueKeys(tail) by {
        forall i, j | 0 <= i < j < |tail| ensures tail[i].key != tail[j].key {
          assert tail[i] == cart[i + 1] && tail[j] == cart[j + 1];
        }
      }
      FilterKeepsUniqueKeys(tail, p);
      var rest := Filter(tail, p);
      if p(cart[0]) {
        forall l | l in rest ensures l.key != cart[0].key {
          var j :| 0 <= j < |tail| && tail[j] == l;
          assert cart[j + 1] == l;
        }
        var r := [cart[0]] + rest;
        forall i, j | 0 <= i < j < |r| ensures r[i].key != r[j].key {
          assert r[j] == rest[j - 1] && rest[j - 1] in rest;
          if i > 0 {
            assert r[i] == rest[i - 1];
          }
        }
      }
    }
  }

  /** The empty cart is well formed, and adding one, removing one and deleting a line keep it so:
      every cart the client reaches meets the precondition of `RemoveOneQty`. */
  lemma CartOpsKeepInvariant(cart: seq<CartLine>, it: Item, key: string)
    requires WellFormed(cart)
    ensures WellFormed([])
    ensures WellFormed(AddOne(cart, it))
    ensures WellFormed(RemoveOne(cart, it))
    ensures WellFormed(DelLine(cart, key))
  {
    AddOneKeepsKeysUnique(cart, it);
    var d := Decrement(cart, LineKey(it.id));
    assert UniqueKeys(d) by {
      forall i, j | 0 <= i < j < |d| ensures d[i].key != d[j].key {
        assert d[i].key == cart[i].key && d[j].key == cart[j].key;
      }
    }
    FilterKeepsUniqueKeys(d, (l: CartLine) => l.qty > 0);
    FilterKeepsUniqueKeys(cart, (l: CartLine) => l.key != key);
    var r := DelLine(cart, key);
    assert forall i :: 0 <= i < |r| ==> r[i] in r;
  }
}
