/** The text pipeline of src/validators/message.validator.ts, and the schema rules of
    src/models/Message.model.ts that the accepted text meets afterwards. */
module MessageValidator {
  import opened Sanitize

  const MAX_LENGTH := 5000

  datatype Validation = Accepted(text: Text) | TooLong | Empty

  /** trim, then the length bound, then the tag stripper, then the non-empty check. */
  function ValidateText(raw: Text): Validation {
    var trimmed := Trim(raw);
    if |trimmed| > MAX_LENGTH then TooLong else
      var text := StripHtmlTags(trimmed);
      if |text| >= 1 then Accepted(text) else Empty
  }

  /** The schema's own setter and validators for `text`: required, trim, maxlength. */
  function ModelText(text: Text): Validation {
    var stored := Trim(text);
    if stored == [] then Empty
    else if |stored| > MAX_LENGTH then TooLong
    else Accepted(stored)
  }

  ghost predicate CleanText(text: Text) {
    Trimmed(text) && NoTag(text) && 1 <= |text| <= MAX_LENGTH
  }

  lemma CleanIsFixpoint(text: Text)
    requires CleanText(text)
    ensures ValidateText(text) == Accepted(text) && ModelText(text) == Accepted(text)
  {
    TrimFixesTrimmed(text);
    UntouchedIffNoTag(text);
  }

  /** Whatever the validator lets through is trimmed, tag-free and 1 to 5000 code units long;
      validating it again returns it unchanged, and so do the schema's own trim and length bound. */
  lemma AcceptedTextIsFixpoint(raw: Text)
    requires ValidateText(raw).Accepted?
    ensures var text := ValidateText(raw).text;
            CleanText(text) && ValidateText(text) == Accepted(text) && ModelText(text) == Accepted(text)
  {
    StripIsIdempotent(Trim(raw));
    CleanIsFixpoint(ValidateText(raw).text);
  }

  /** The accepted texts are exactly the clean ones: none other can be stored, and none of them is lost. */
  lemma AcceptedTextsAreExactlyClean(text: Text)
    ensures (exists raw :: ValidateText(raw) == Accepted(text)) <==> CleanText(text)
  {
    if raw :| ValidateText(raw) == Accepted(text) {
      AcceptedTextIsFixpoint(raw);
    }
    if CleanText(text) {
      CleanIsFixpoint(text);
    }
  }

  /** A raw text is accepted iff, after trimming, it is at most 5000 code units long and some code unit
      outside every tag is not white space. The bound is on the text before stripping. What is accepted is the text
      outside the tags, trimmed. */
  lemma AcceptedIff(raw: Text)
    ensures ValidateText(raw).Accepted? <==>
              var t := Trim(raw);
              |t| <= 5000 && exists k :: 0 <= k < |t| && !InTag(t, k) && !IsSpace(t[k])
    ensures ValidateText(raw).Accepted? ==> ValidateText(raw).text == Trim(OutsideTags(Trim(raw), 0))
    ensures ValidateText(raw).TooLong? <==> |Trim(raw)| > 5000
  {
    var t := Trim(raw);
    ScannerRefinesSpec(t);
    TrimEmptyIffBlank(RemoveTags(t));
    if c :| c in RemoveTags(t) && !IsSpace(c) {
      OutsideTagsMember(t, 0, c);
    }
    if k :| 0 <= k < |t| && !InTag(t, k) && !IsSpace(t[k]) {
      OutsideTagsMember(t, 0, t[k]);
    }
  }

  /** The schema stores a text as it is, exactly if it is trimmed and 1 to 5000 code units long. */
  lemma SchemaKeepsIff(text: Text)
    ensures ModelText(text) == Accepted(text) <==> Trimmed(text) && 1 <= |text| <= 5000
  {
    TrimFixesTrimmed(text);
  }

  function Letters(n: nat): (s: Text)
    ensures |s| == n && forall i :: 0 <= i < n ==> s[i] == 0x61
  {
    seq(n, _ => 0x61)
  }

  /** n letters are accepted, as they are, iff 1 <= n <= 5000. */
  lemma LettersAccepted(n: nat)
    ensures ValidateText(Letters(n)) == Accepted(Letters(n)) <==> 1 <= n <= 5000
    ensures ValidateText(Letters(n)).Accepted? <==> 1 <= n <= 5000
  {
    TrimFixesTrimmed(Letters(n));
    if 1 <= n <= 5000 {
      CleanIsFixpoint(Letters(n));
    }
  }

  const ONE_LETTER: Text := [0x61]

  lemma OneLetterIsAccepted()
    ensures ValidateText(ONE_LETTER) == Accepted(ONE_LETTER)
  {
    CleanIsFixpoint(ONE_LETTER);
  }
}
