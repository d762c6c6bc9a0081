/**
 * The input check of lib/agents/orchestrator.ts (validateRFPInput): the
 * problems found in an RFP text before it is processed.
 */
module Orchestrator {
  import opened JsText

  const EmptyTextError := "RFP text cannot be empty"
  const TooShortError := "RFP text seems too short - please provide complete RFP document"

  /** The shortest RFP text accepted as complete, in UTF-16 code units (`length`). */
  const MinimumLength := 100

  /** Nothing but whitespace (or nothing at all). */
  ghost predicate IsBlank(text: string) {
    forall i :: 0 <= i < |text| ==> IsSpace(text[i])
  }

  /** The errors a text draws, in the order they are reported. */
  ghost function ValidationErrors(text: string): seq<string> {
    (if IsBlank(text) then [EmptyTextError] else [])
    + (if Utf16Length(text) < MinimumLength then [TooShortError] else [])
  }

  /**
   * `validateRFPInput`: collects the errors one check at a time; the text is
   * valid exactly when there are none.
   */
  method ValidateRfpInput(rfpText: string) returns (valid: bool, errors: seq<string>)
    ensures errors == ValidationErrors(rfpText)
    ensures valid <==> errors == []
  {
    errors := [];
    if rfpText == [] || |Trim(rfpText)| == 0 {
      errors := errors + [EmptyTextError];
    }
    if Utf16Length(rfpText) < MinimumLength {
      errors := errors + [TooShortError];
    }
    TrimSpec(rfpText);
    valid := |errors| == 0;
  }

  /** The empty text draws both errors, the empty-text error first. */
  lemma EmptyTextErrors()
    ensures ValidationErrors("") == [EmptyTextError, TooShortError]
  {
  }

  /** A text of 100 or more whitespace characters draws the empty-text error alone. */
  lemma LongBlankTextErrors(text: string)
    requires IsBlank(text) && |text| >= MinimumLength
    ensures ValidationErrors(text) == [EmptyTextError]
  {
  }

  /**
   * A text is valid exactly when it has a non-whitespace character and is
   * at least 100 UTF-16 code units long.
   */
  lemma ValidTexts(text: string)
    ensures ValidationErrors(text) == [] <==> !IsBlank(text) && Utf16Length(text) >= MinimumLength
  {
  }

  /** Within the Basic Multilingual Plane, a valid text is one of at least 100 characters. */
  lemma ValidBasicPlaneTexts(text: string)
    requires InBasicPlane(text)
    ensures ValidationErrors(text) == [] <==> !IsBlank(text) && |text| >= MinimumLength
  {
    Utf16LengthSpec(text);
    ValidTexts(text);
  }

  /** Fifty emoji (each a surrogate pair) are 100 code units long: a valid text. */
  lemma SurrogatePairsCountTwice(text: string)
    requires |text| == 50 && forall i :: 0 <= i < |text| ==> text[i] == '\U{1F600}'
    ensures ValidationErrors(text) == []
  {
    Utf16LengthSpec(text);
    assert !IsSpace(text[0]);
  }
}
