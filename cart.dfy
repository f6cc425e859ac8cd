/**
 * The order list ("cart"): line items keyed by EAN, in insertion order.
 * Adding an EAN already listed merges the quantity into that entry where it
 * stands; removal drops every entry with the given EAN.
 */
module Cart {
  import opened Wrappers
  import opened Money
  import opened Catalog

  /**
   * One line of the cart; QTY in hundredths, RATE and AMOUNT in hundredths
   * or NaN (a row with a blank RATE cell gets NaN for both).
   */
  datatype Item = Item(ean: string, description: string, qty: int, rate: Cell, amount: Cell)

  /** At most one entry per EAN. */
  predicate UniqueEans(items: seq<Item>)
  {
    forall i, j :: 0 <= i < j < |items| ==> items[i].ean != items[j].ean
  }

  /** Every AMOUNT is its own QTY times its own RATE, rounded (NaN for a NaN RATE). */
  predicate AmountsConsistent(items: seq<Item>)
  {
    forall i :: 0 <= i < |items| ==> items[i].amount == Price(items[i].qty, items[i].rate)
  }

  predicate PositiveQuantities(items: seq<Item>)
  {
    forall i :: 0 <= i < |items| ==> items[i].qty > 0
  }

  /** What every reachable cart satisfies. */
  predicate WellFormed(items: seq<Item>)
  {
    UniqueEans(items) && AmountsConsistent(items) && PositiveQuantities(items)
  }

  /** The position of the first entry with this EAN, if any. */
  function IndexOfEan(items: seq<Item>, ean: string): (r: Option<nat>)
    ensures r.Some? ==> r.value < |items| && items[r.value].ean == ean
    ensures r.Some? ==> forall j :: 0 <= j < r.value ==> items[j].ean != ean
    ensures r.None? ==> forall j :: 0 <= j < |items| ==> items[j].ean != ean
  {
    if items == [] then None
    else if items[0].ean == ean then Some(0)
    else
      match IndexOfEan(items[1..], ean)
      case None => None
      case Some(i) => Some(i + 1)
  }

  /** The entry a first add of `row` creates. */
  function NewItem(row: Row, qty: int): Item
  {
    Item(row.ean, row.description, qty, row.rate, Price(qty, row.rate))
  }

  /** An entry after `qty` more is merged into it; its own RATE prices the total. */
  function Merged(item: Item, qty: int): Item
  {
    item.(qty := item.qty + qty, amount := Price(item.qty + qty, item.rate))
  }

  /**
   * The cart after adding `qty` of `row`. A non-positive quantity is
   * rejected and changes nothing. Otherwise the first entry with the row's
   * EAN absorbs the quantity in place, keeping its description and rate,
   * or, when there is none, one new entry goes to the end.
   */
  function AddToCart(items: seq<Item>, row: Row, qty: int): (r: seq<Item>)
    ensures qty <= 0 ==> r == items
    ensures qty > 0 && IndexOfEan(items, row.ean).Some? ==>
      var i := IndexOfEan(items, row.ean).value;
      && |r| == |items|
      && r[i].ean == items[i].ean == row.ean
      && r[i].description == items[i].description
      && r[i].rate == items[i].rate
      && r[i].qty == items[i].qty + qty
      && r[i].amount == Price(items[i].qty + qty, items[i].rate)
      && (forall j :: 0 <= j < |items| && j != i ==> r[j] == items[j])
    ensures qty > 0 && IndexOfEan(items, row.ean).None? ==>
      && |r| == |items| + 1
      && r[..|items|] == items
      && r[|items|] == Item(row.ean, row.description, qty, row.rate, Price(qty, row.rate))
  {
    if qty <= 0 then items
    else
      match IndexOfEan(items, row.ean)
      case Some(i) => items[i := Merged(items[i], qty)]
      case None => items + [NewItem(row, qty)]
  }

  /** Adding keeps a well-formed cart well-formed: still one entry per EAN. */
  lemma AddKeepsWellFormed(items: seq<Item>, row: Row, qty: int)
    requires WellFormed(items)
    ensures WellFormed(AddToCart(items, row, qty))
  {
  }

  /**
   * Two adds of the same EAN are one add of the summed quantity: the
   * entry's description and rate come from whichever add came first.
   */
  lemma AddTwiceIsAddSum(items: seq<Item>, row: Row, again: Row, q1: int, q2: int)
    requires q1 > 0 && q2 > 0 && again.ean == row.ean
    ensures AddToCart(AddToCart(items, row, q1), again, q2) == AddToCart(items, row, q1 + q2)
  {
    var once := AddToCart(items, row, q1);
    match IndexOfEan(items, row.ean)
    case Some(i) =>
      assert IndexOfEan(once, row.ean) == Some(i) by {
        assert once[i].ean == row.ean;
      }
      assert once[i] == Merged(items[i], q1);
    case None =>
      assert IndexOfEan(once, row.ean) == Some(|items|) by {
        assert once[|items|].ean == row.ean;
      }
  }

  /**
   * Adding 3 units of a 10.00 item and then 2 more gives a single line of 5
   * units with AMOUNT 50.00.
   */
  lemma AddExample()
    ensures var row := Row("4006381333931", "Widget A", Number(1000));
      AddToCart(AddToCart([], row, 300), row, 200) == [Item("4006381333931", "Widget A", 500, Number(1000), Number(5000))]
  {
    var row := Row("4006381333931", "Widget A", Number(1000));
    AddTwiceIsAddSum([], row, row, 300, 200);
  }

  /** The cart without any entry carrying `ean`; the others keep their order. */
  function RemoveEan(items: seq<Item>, ean: string): (r: seq<Item>)
    ensures |r| <= |items|
  {
    if items == [] then []
    else (if items[0].ean == ean then [] else [items[0]]) + RemoveEan(items[1..], ean)
  }

  /** The entries that survive removal are exactly those whose EAN differs. */
  lemma {:induction false} RemoveMembers(items: seq<Item>, ean: string)
    ensures forall x :: x in RemoveEan(items, ean) <==> x in items && x.ean != ean
  {
    if items != [] {
      RemoveMembers(items[1..], ean);
      assert items == [items[0]] + items[1..];
    }
  }

  /**
   * What removal reports: the cart got shorter exactly when some entry had
   * the EAN, and it is unchanged exactly when none had.
   */
  lemma {:induction false} RemoveReport(items: seq<Item>, ean: string)
    ensures |RemoveEan(items, ean)| < |items| <==> IndexOfEan(items, ean).Some?
    ensures RemoveEan(items, ean) == items <==> IndexOfEan(items, ean).None?
  {
    if items != [] {
      RemoveReport(items[1..], ean);
      if items[0].ean != ean {
        match IndexOfEan(items[1..], ean)
        case None =>
        case Some(k) =>
          assert items[k + 1] == items[1..][k];
      }
    }
  }

  /** Removal distributes over concatenation, which is what keeping the order means. */
  lemma {:induction false} RemoveOfAppend(a: seq<Item>, b: seq<Item>, ean: string)
    ensures RemoveEan(a + b, ean) == RemoveEan(a, ean) + RemoveEan(b, ean)
  {
    if a == [] {
      assert a + b == b;
    } else {
      assert (a + b)[1..] == a[1..] + b;
      RemoveOfAppend(a[1..], b, ean);
    }
  }

  /** In a well-formed cart removal deletes exactly the one matching entry. */
  lemma {:induction false} RemoveFromWellFormed(items: seq<Item>, ean: string, i: nat)
    requires UniqueEans(items) && i < |items| && items[i].ean == ean
    ensures RemoveEan(items, ean) == items[..i] + items[i + 1..]
  {
    var rest := items[1..];
    if i == 0 {
      assert IndexOfEan(rest, ean).None? by {
        forall j | 0 <= j < |rest| ensures rest[j].ean != ean {
          assert rest[j] == items[j + 1];
        }
      }
      RemoveReport(rest, ean);
      assert items[..0] + items[1..] == rest;
    } else {
      assert UniqueEans(rest) by {
        forall a, b | 0 <= a < b < |rest| ensures rest[a].ean != rest[b].ean {
          assert rest[a] == items[a + 1] && rest[b] == items[b + 1];
        }
      }
      RemoveFromWellFormed(rest, ean, i - 1);
      assert RemoveEan(items, ean) == [items[0]] + RemoveEan(rest, ean);
      assert items[..i] + items[i + 1..] == [items[0]] + (rest[..i - 1] + rest[i..]);
    }
  }

  /** Removal keeps the cart well-formed. */
  lemma {:induction false} RemoveKeepsWellFormed(items: seq<Item>, ean: string)
    requires WellFormed(items)
    ensures WellFormed(RemoveEan(items, ean))
  {
    if items != [] {
      var rest := items[1..];
      RemoveKeepsWellFormed(rest, ean);
      var r := RemoveEan(items, ean);
      if items[0].ean != ean {
        RemoveMembers(rest, ean);
        assert r == [items[0]] + RemoveEan(rest, ean);
        forall j | 0 < j < |r| ensures r[0].ean != r[j].ean {
          assert r[j] in RemoveEan(rest, ean);
          assert r[j] in rest;
        }
      }
    }
  }

  /** The cart of one user session. */
  class SessionCart {
    var items: seq<Item>

    ghost predicate Valid()
      reads this
    {
      WellFormed(items)
    }

    constructor ()
      ensures Valid() && items == []
    {
      items := [];
    }

    /**
     * Adds `qty` of `row`: scans for the first entry with the same EAN,
     * merges into it and stops, or appends a new entry when the scan finds
     * none. Reports whether the quantity was accepted.
     */
    method Add(row: Row, qty: int) returns (added: bool)
      requires Valid()
      modifies this
      ensures Valid()
      ensures added <==> qty > 0
      ensures items == AddToCart(old(items), row, qty)
    {
      if qty <= 0 {
        return false;
      }
      var found := false;
      var i := 0;
      while i < |items|
        invariant 0 <= i <= |items|
        invariant items == old(items)
        invariant forall j :: 0 <= j < i ==> items[j].ean != row.ean
      {
        if items[i].ean == row.ean {
          items := items[i := Merged(items[i], qty)];
          found := true;
          break;
        }
        i := i + 1;
      }
      if !found {
        items := items + [NewItem(row, qty)];
      }
      AddKeepsWellFormed(old(items), row, qty);
      added := true;
    }

    /**
     * Keeps every entry whose EAN differs from `ean`; reports whether the
     * cart got shorter ("deleted") rather than staying as it was ("not found").
     */
    method Remove(ean: string) returns (deleted: bool)
      requires Valid()
      modifies this
      ensures Valid()
      ensures items == RemoveEan(old(items), ean)
      ensures deleted <==> |items| < |old(items)|
      ensures !deleted <==> items == old(items)
    {
      var before := |items|;
      RemoveKeepsWellFormed(items, ean);
      RemoveReport(items, ean);
      items := RemoveEan(items, ean);
      deleted := |items| < before;
    }
  }
}
