/** Normalisation of the language model's urgency answer. */
module UrgencyService {
  import opened Wrappers
  import opened Text
  import opened Models

  /** The urgency named by the model's reply after strip and upper-casing; LOW for anything else. */
  function NormalizeUrgency(reply: string): (u: Urgency)
    ensures ParseUrgency(Upper(Strip(reply))).Some? ==> UrgencyName(u) == Upper(Strip(reply))
    ensures ParseUrgency(Upper(Strip(reply))).None? ==> u == Low
  {
    ParseUrgency(Upper(Strip(reply))).GetOr(Low)
  }

  /** Lower-casing a capital or an underscore never yields white space. */
  lemma LowerLetterIsNotSpace(c: char)
    requires IsUpperAscii(c) || c == '_'
    ensures !IsSpace(LowerChar(c))
  {
    var d := LowerChar(c);
    assert 'a' <= d <= 'z' || d == '_';
  }

  /** A lower-cased word of capitals and underscores normalises to the urgency it names. */
  lemma NormalizeLowerCasedWord(name: string)
    requires name != []
    requires forall k :: 0 <= k < |name| ==> IsUpperAscii(name[k]) || name[k] == '_'
    ensures NormalizeUrgency(Lower(name)) == ParseUrgency(name).GetOr(Low)
  {
    var lower := Lower(name);
    LowerLetterIsNotSpace(name[0]);
    LowerLetterIsNotSpace(name[|name| - 1]);
    StripUnpadded(lower);
    UpperOfLower(name);
    assert Upper(Strip(lower)) == name;
  }

  /** Every urgency survives a reply written in lower case. */
  lemma NormalizeAcceptsLowerCaseNames(u: Urgency)
    ensures NormalizeUrgency(Lower(UrgencyName(u))) == u
  {
    UrgencyIsFourValued();
    match u
    case Low => NormalizeLowerCasedWord("LOW");
    case Medium => NormalizeLowerCasedWord("MEDIUM");
    case High => NormalizeLowerCasedWord("HIGH");
    case Critical => NormalizeLowerCasedWord("CRITICAL");
  }
}
