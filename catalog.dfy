/**
 * The uploaded price list: one row per product, and the header check that
 * decides whether a parsed file becomes the catalog at all.
 */
module Catalog {
  import opened Money

  /**
   * One price-list row: EAN and DESCRIPTION as text, RATE in hundredths or
   * NaN for a blank RATE cell.
   */
  datatype Row = Row(ean: string, description: string, rate: Cell)

  /** The header names a price list must have. */
  const RequiredColumns: seq<string> := ["EAN", "DESCRIPTION", "RATE"]

  /**
   * The entries of `required` absent from `header`, in the order of
   * `required`. The catalog is kept only when nothing is missing.
   */
  function MissingFrom(required: seq<string>, header: seq<string>): (missing: seq<string>)
    ensures |missing| <= |required|
    ensures forall c :: c in missing <==> c in required && c !in header
    ensures missing == [] <==> forall k :: 0 <= k < |required| ==> required[k] in header
  {
    if required == [] then []
    else (if required[0] in header then [] else [required[0]]) + MissingFrom(required[1..], header)
  }

  /** The missing required columns of a parsed file's header. */
  function MissingColumns(header: seq<string>): (missing: seq<string>)
    ensures forall c :: c in missing <==> c in RequiredColumns && c !in header
    ensures missing == [] <==> "EAN" in header && "DESCRIPTION" in header && "RATE" in header
  {
    MissingFrom(RequiredColumns, header)
  }

  /** Checking two lists of names reports the first list's missing names, then the second's. */
  lemma {:induction false} MissingOfAppend(a: seq<string>, b: seq<string>, header: seq<string>)
    ensures MissingFrom(a + b, header) == MissingFrom(a, header) + MissingFrom(b, header)
  {
    if a == [] {
      assert a + b == b;
    } else {
      assert (a + b)[1..] == a[1..] + b;
      MissingOfAppend(a[1..], b, header);
    }
  }

  /** A header lacking all three names reports them all, in the required order. */
  lemma {:induction false} MissingKeepsRequiredOrder(required: seq<string>, header: seq<string>)
    requires forall k :: 0 <= k < |required| ==> required[k] !in header
    ensures MissingFrom(required, header) == required
  {
    if required != [] {
      MissingKeepsRequiredOrder(required[1..], header);
    }
  }
}
