/** `parse_allergies`: the profile's free-text allergy list as clean, lower-case items. */
module Allergies {
  import opened Wrappers
  import opened Text

  /** An item as the parser emits it: non-empty, trimmed and lower-case. */
  predicate WellFormedItem(a: string) {
    && a != ""
    && !IsSpace(a[0])
    && !IsSpace(a[|a| - 1])
    && IsLowerCase(a)
  }

  /** One comma-separated piece: its stripped, lower-cased text, or nothing when it is blank. */
  function CleanPiece(p: string): (items: seq<string>)
    ensures |items| <= 1
    ensures items == [] <==> AllSpace(p)
    ensures forall a :: a in items ==> WellFormedItem(a)
  {
    var t := Strip(p);
    if t != "" then [Lower(t)] else []
  }

  /** The list comprehension over the comma-separated pieces. */
  function CleanItems(pieces: seq<string>): (items: seq<string>)
    ensures |items| <= |pieces|
    ensures forall a :: a in items ==> WellFormedItem(a)
  {
    if pieces == [] then [] else CleanPiece(pieces[0]) + CleanItems(pieces[1..])
  }

  /** `parse_allergies(allergies_str)`; `None` reads as the empty text. */
  function ParseAllergies(input: Option<string>): (items: seq<string>)
    ensures forall a :: a in items ==> WellFormedItem(a)
  {
    CleanItems(Split(input.GetOr(""), ','))
  }

  /** No input, empty input and blank input all give no allergies. */
  lemma ParseAllergiesOfNothing(blank: string)
    requires AllSpace(blank)
    ensures ParseAllergies(None) == []
    ensures ParseAllergies(Some("")) == []
    ensures ParseAllergies(Some(blank)) == []
  {
    assert ',' !in blank by {
      assert !IsSpace(',');
    }
    SplitNoSeparator(blank, ',');
    SplitNoSeparator("", ',');
    assert CleanItems([blank]) == CleanPiece(blank) + CleanItems([]);
    assert CleanItems([""]) == CleanPiece("") + CleanItems([]);
  }

  /** A piece without a comma gives its stripped, lower-cased self, or nothing when blank. */
  lemma ParseAllergiesSingle(s: string)
    requires ',' !in s
    ensures ParseAllergies(Some(s)) == if Strip(s) == "" then [] else [Lower(Strip(s))]
  {
    SplitNoSeparator(s, ',');
    assert CleanItems([s]) == CleanPiece(s) + CleanItems([]);
  }

  lemma {:induction false} CleanItemsAppend(xs: seq<string>, ys: seq<string>)
    ensures CleanItems(xs + ys) == CleanItems(xs) + CleanItems(ys)
  {
    if xs != [] {
      assert (xs + ys)[0] == xs[0];
      assert (xs + ys)[1..] == xs[1..] + ys;
      CleanItemsAppend(xs[1..], ys);
    } else {
      assert xs + ys == ys;
    }
  }

  /**
   * Input order is kept: the items of the text before a comma come first,
   * followed by the items of the text after it.
   */
  lemma ParseAllergiesConcat(a: string, b: string)
    ensures ParseAllergies(Some(a + "," + b)) == ParseAllergies(Some(a)) + ParseAllergies(Some(b))
  {
    SplitAppend(a, b, ',');
    CleanItemsAppend(Split(a, ','), Split(b, ','));
  }

  lemma {:induction false} CleanItemsMembers(pieces: seq<string>, a: string)
    ensures a in CleanItems(pieces) <==> exists p :: p in pieces && Strip(p) != "" && a == Lower(Strip(p))
  {
    if pieces != [] {
      CleanItemsMembers(pieces[1..], a);
      assert forall p :: p in pieces <==> p == pieces[0] || p in pieces[1..];
    }
  }

  /** Every item comes from one comma-separated piece with something left after stripping, and every such piece yields one. */
  lemma ParseAllergiesMembers(s: string, a: string)
    ensures a in ParseAllergies(Some(s)) <==> exists p :: p in Split(s, ',') && Strip(p) != "" && a == Lower(Strip(p))
  {
    CleanItemsMembers(Split(s, ','), a);
  }
}
