/**
 * The client-side state of the feedback form: the star rating, the list of
 * selected improvement options and the free text of the "Other" option,
 * together with the pure rules used when rendering (which stars are filled,
 * the checkbox ids, whether the "Other" text area is shown).
 */
module FeedbackForm {
  import opened Text
  import opened Seqs

  const OtherOption := "Other (please specify): _______"

  /** The five stars, in rendering order. */
  const Stars: seq<int> := [1, 2, 3, 4, 5]

  /** `prev.filter((item) => item !== option)`. */
  function Without(selection: seq<string>, option: string): seq<string> {
    Filter(item => item != option, selection)
  }

  /** `option.replace(/[^a-zA-Z0-9]/g, "")`. */
  function CheckboxId(option: string): string {
    Filter(IsAsciiAlnum, option)
  }

  /** Star `star` is drawn filled when `star <= rating`. */
  predicate IsStarFilled(star: int, rating: int) {
    star <= rating
  }

  /** The filled stars for a rating, in rendering order. */
  function FilledStars(rating: int): seq<int> {
    Filter(star => IsStarFilled(star, rating), Stars)
  }

  /** Unchecking removes every occurrence of the option and keeps every other entry, in order. */
  lemma UncheckRemovesEveryOccurrence(selection: seq<string>, option: string)
    ensures option !in Without(selection, option)
    ensures IsSubsequence(Without(selection, option), selection)
    ensures forall other :: other != option ==>
              multiset(Without(selection, option))[other] == multiset(selection)[other]
  {
    FilterIsSubsequence(item => item != option, selection);
    forall other | other != option
      ensures multiset(Without(selection, option))[other] == multiset(selection)[other]
    {
      FilterCount(item => item != option, selection, other);
    }
  }

  /** Checking an option and unchecking it again leaves the selection as unchecking alone would. */
  lemma CheckThenUncheck(selection: seq<string>, option: string)
    ensures Without(selection + [option], option) == Without(selection, option)
  {
    FilterAppend(item => item != option, selection, [option]);
    assert Without([option], option) == [];
  }

  /** Unchecking twice is unchecking once. */
  lemma UncheckIdempotent(selection: seq<string>, option: string)
    ensures Without(Without(selection, option), option) == Without(selection, option)
  {
    FilterIdempotent(item => item != option, selection);
  }

  /** A checkbox id holds only `[a-zA-Z0-9]`, in the option's order, and every such character of the option. */
  lemma CheckboxIdCharacters(option: string)
    ensures forall k :: 0 <= k < |CheckboxId(option)| ==> IsAsciiAlnum(CheckboxId(option)[k])
    ensures IsSubsequence(CheckboxId(option), option)
    ensures forall c :: IsAsciiAlnum(c) ==> multiset(CheckboxId(option))[c] == multiset(option)[c]
  {
    FilterIsSubsequence(IsAsciiAlnum, option);
    forall c | IsAsciiAlnum(c)
      ensures multiset(CheckboxId(option))[c] == multiset(option)[c]
    {
      FilterCount(IsAsciiAlnum, option, c);
    }
  }

  /** For a rating in 0..5 the filled stars are exactly the first `rating` stars; none at rating 0. */
  lemma FilledStarsArePrefix(rating: int)
    requires 0 <= rating <= 5
    ensures FilledStars(rating) == Stars[..rating]
    ensures |FilledStars(rating)| == rating
  {
    FilterPrefix(star => IsStarFilled(star, rating), Stars, rating);
  }

  class FormState {
    var rating: int
    var selectedImprovements: seq<string>
    var otherImprovementText: string

    /**
     * The rating is 0 (no star chosen) or the number of a star, and "Other"
     * text can only exist while the "Other" box is checked.
     */
    ghost predicate Valid()
      reads this
    {
      0 <= rating <= 5 && (otherImprovementText != "" ==> IsOtherSelected())
    }

    constructor ()
      ensures Valid()
      ensures rating == 0 && selectedImprovements == [] && otherImprovementText == ""
    {
      rating := 0;
      selectedImprovements := [];
      otherImprovementText := "";
    }

    /** `isOtherSelected`: the "Other" text area is shown. */
    predicate IsOtherSelected()
      reads this
    {
      OtherOption in selectedImprovements
    }

    /** `selectedImprovements.includes(option)`: the box of `option` is checked. */
    predicate IsChecked(option: string)
      reads this
    {
      option in selectedImprovements
    }

    /** `handleCheckboxChange`. */
    method HandleCheckboxChange(option: string, checked: bool)
      requires Valid()
      modifies this
      ensures Valid()
      ensures selectedImprovements ==
                if checked then old(selectedImprovements) + [option]
                else Without(old(selectedImprovements), option)
      ensures otherImprovementText ==
                if !checked && option == OtherOption then "" else old(otherImprovementText)
      ensures rating == old(rating)
      ensures IsChecked(option) == checked
      ensures forall other :: other != option ==> (IsChecked(other) <==> old(IsChecked(other)))
    {
      if checked {
        selectedImprovements := selectedImprovements + [option];
      } else {
        var before := selectedImprovements;
        selectedImprovements := Without(before, option);
        if option == OtherOption {
          otherImprovementText := "";
        } else if OtherOption in before {
          var k :| 0 <= k < |before| && before[k] == OtherOption;
          assert OtherOption in selectedImprovements;
        }
      }
    }

    /** The `onClick` of star `star`: `setRating(star)`. */
    method ClickStar(star: int)
      requires Valid()
      requires star in Stars
      modifies this
      ensures Valid()
      ensures rating == star
      ensures FilledStars(rating) == Stars[..star]
      ensures selectedImprovements == old(selectedImprovements)
      ensures otherImprovementText == old(otherImprovementText)
    {
      rating := star;
      FilledStarsArePrefix(star);
    }

    /** The `onChange` of the "Other" text area, which is rendered only while "Other" is checked. */
    method EditOtherText(text: string)
      requires Valid() && IsOtherSelected()
      modifies this
      ensures Valid()
      ensures otherImprovementText == text
      ensures rating == old(rating) && selectedImprovements == old(selectedImprovements)
    {
      otherImprovementText := text;
    }
  }
}
