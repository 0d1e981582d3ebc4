/** The notes under a line item in the detail dialog: its flavours, the
    parts of a combo and the removed ingredients, each shown only when the
    field is present and not empty. */
module Annotations {
  import opened Wrappers
  import opened OrderModel
  import Text

  datatype Annotation =
    | FlavorList(text: string)          // the selected flavours, comma separated
    | SingleFlavor(text: string)        // the older single-flavour field
    | ComboParts(lines: seq<string>)    // one bulleted line per combo part
    | Removed(text: string)             // "Sem: " and the removed ingredients

  /** The flavour-list note: shown when `selectedFlavors` is present and
      non-empty, as the flavours joined by ", ". */
  function FlavorListNote(item: LineItem): (r: Option<Annotation>)
    ensures r.Some? <==> NonEmptyList(item.selectedFlavors)
    ensures r.Some? ==>
      && r.value == FlavorList(Text.Join(item.selectedFlavors.value, ", "))
  {
    if NonEmptyList(item.selectedFlavors) then Some(FlavorList(Text.Join(item.selectedFlavors.value, ", ")))
    else None
  }

  /** The single-flavour note: shown only when `selectedFlavors` is absent
      altogether and `selectedFlavor` is a non-empty string. A present but
      empty `selectedFlavors` hides it too. */
  function SingleFlavorNote(item: LineItem): (r: Option<Annotation>)
    ensures r.Some? <==> Truthy(item.selectedFlavor) && item.selectedFlavors.None?
    ensures r.Some? ==> r.value == SingleFlavor(item.selectedFlavor.value)
  {
    if Truthy(item.selectedFlavor) && item.selectedFlavors.None? then Some(SingleFlavor(item.selectedFlavor.value))
    else None
  }

  /** "• " in front of every combo part. */
  function Bulleted(parts: seq<string>): (r: seq<string>)
    ensures |r| == |parts|
    ensures forall i :: 0 <= i < |parts| ==> r[i] == "• " + parts[i]
  {
    seq(|parts|, i requires 0 <= i < |parts| => "• " + parts[i])
  }

  /** The combo note: one bulleted line per combo part, when there are any. */
  function ComboNote(item: LineItem): (r: Option<Annotation>)
    ensures r.Some? <==> NonEmptyList(item.comboItems)
    ensures r.Some? ==> r.value == ComboParts(Bulleted(item.comboItems.value))
    ensures r.Some? ==> forall i :: 0 <= i < |item.comboItems.value| ==>
      r.value.lines[i] == "• " + item.comboItems.value[i]
  {
    if NonEmptyList(item.comboItems) then Some(ComboParts(Bulleted(item.comboItems.value)))
    else None
  }

  /** The removed-ingredients note: "Sem: " and the ingredients joined by
      ", ", when there are any. */
  function RemovedNote(item: LineItem): (r: Option<Annotation>)
    ensures r.Some? <==> NonEmptyList(item.removedIngredients)
    ensures r.Some? ==>
      && r.value.Removed?
      && |r.value.text| >= 5
      && r.value.text[..5] == "Sem: "
      && r.value.text[5..] == Text.Join(item.removedIngredients.value, ", ")
  {
    if NonEmptyList(item.removedIngredients) then
      var text := "Sem: " + Text.Join(item.removedIngredients.value, ", ");
      assert text[5..] == Text.Join(item.removedIngredients.value, ", ");
      Some(Removed(text))
    else None
  }

  function OptionToSeq(o: Option<Annotation>): seq<Annotation>
  {
    if o.Some? then [o.value] else []
  }

  /** The place of each kind of note, top to bottom. */
  function Rank(a: Annotation): nat
  {
    match a
    case FlavorList(_) => 0
    case SingleFlavor(_) => 1
    case ComboParts(_) => 2
    case Removed(_) => 3
  }

  /** The flavour lines under an item: exactly the list note and the single
      note that are shown, the list first. */
  function FlavorNotes(item: LineItem): (r: seq<Annotation>)
    ensures forall a :: a in r <==> Some(a) == FlavorListNote(item) || Some(a) == SingleFlavorNote(item)
    ensures |r| <= 2
    ensures forall i :: 0 <= i < |r| ==> r[i].FlavorList? || r[i].SingleFlavor?
    ensures forall i, j :: 0 <= i < j < |r| ==> Rank(r[i]) < Rank(r[j])
  {
    OptionToSeq(FlavorListNote(item)) + OptionToSeq(SingleFlavorNote(item))
  }

  /** The notes under an item, top to bottom: every note whose block is
      shown, each block on its own, at most one of each kind, always in the
      order flavour list, single flavour, combo, removed. */
  function NotesOf(item: LineItem): (r: seq<Annotation>)
    ensures forall a :: a in r <==>
      || Some(a) == FlavorListNote(item) || Some(a) == SingleFlavorNote(item)
      || Some(a) == ComboNote(item) || Some(a) == RemovedNote(item)
    ensures |r| <= 4
    ensures forall i, j :: 0 <= i < j < |r| ==> Rank(r[i]) < Rank(r[j])
  {
    var f := FlavorNotes(item);
    var c := OptionToSeq(ComboNote(item));
    var d := OptionToSeq(RemovedNote(item));
    assert forall a :: a in c ==> Rank(a) == 2;
    assert forall a :: a in d ==> Rank(a) == 3;
    assert forall i :: 0 <= i < |f| ==> Rank(f[i]) <= 1;
    f + c + d
  }

  /** At most one flavour line is shown. The list wins when present and
      non-empty; the single flavour shows only when the list is absent; and
      a present but empty list shows no flavour line at all, whatever
      `selectedFlavor` holds. */
  lemma FlavorPrecedence(item: LineItem)
    ensures |FlavorNotes(item)| <= 1
    ensures |FlavorNotes(item)| == 1 <==>
      NonEmptyList(item.selectedFlavors) || (item.selectedFlavors.None? && Truthy(item.selectedFlavor))
    ensures item.selectedFlavors == Some([]) ==> FlavorNotes(item) == []
    ensures NonEmptyList(item.selectedFlavors) ==>
      FlavorNotes(item) == [FlavorList(Text.Join(item.selectedFlavors.value, ", "))]
    ensures item.selectedFlavors.None? && Truthy(item.selectedFlavor) ==>
      FlavorNotes(item) == [SingleFlavor(item.selectedFlavor.value)]
    ensures FlavorNotes(item) <= NotesOf(item)
  {
  }

  /** An item without any of the four optional notes shows none. */
  lemma NoNotes(item: LineItem)
    ensures NotesOf(item) == [] <==>
      !NonEmptyList(item.selectedFlavors)
      && !(item.selectedFlavors.None? && Truthy(item.selectedFlavor))
      && !NonEmptyList(item.comboItems)
      && !NonEmptyList(item.removedIngredients)
  {
  }
}
