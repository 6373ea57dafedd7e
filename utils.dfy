/** The text helpers of `src/lib/utils.ts`. */
module Utils {

  /** The default `maxLength` of `truncateText`. */
  const DefaultMaxLength: nat := 30

  /** `truncateText`: the empty text stays empty, a text of at most `maxLength` characters
      is returned as it is, a longer one is cut to its first `maxLength` characters and
      followed by "...". */
  function TruncateText(text: string, maxLength: nat): (r: string)
    ensures |text| <= maxLength ==> r == text
    ensures |text| > maxLength ==>
      |r| == maxLength + 3 && r[..maxLength] == text[..maxLength] && r[maxLength..] == "..."
    ensures |r| <= maxLength + 3
  {
    if text == "" then ""
    else if |text| <= maxLength then text
    else text[..maxLength] + "..."
  }

  /** Truncating an already truncated text changes nothing: the cut text is longer than
      `maxLength`, and cutting it again keeps the same prefix and the same "...". */
  lemma TruncateTextIdempotent(text: string, maxLength: nat)
    ensures TruncateText(TruncateText(text, maxLength), maxLength) == TruncateText(text, maxLength)
  {
    var once := TruncateText(text, maxLength);
    if |text| > maxLength {
      assert once[..maxLength] == text[..maxLength];
    }
  }
}
