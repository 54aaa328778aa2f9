/** The keyword scanner object of script/scanner.go. */
module ScannerKeywords {
  import opened Bytes
  import opened Scanner

  /** `keywordScanner`: the keywords, their kinds, and the longest keyword's length. */
  class KeywordScanner {
    var maxWordLen: int
    var keywords: seq<seq<byte>>
    var keywordsType: seq<BufType>

    /** The package variable `keywords` before `init`. */
    constructor ()
      ensures maxWordLen == 0 && keywords == Keywords && keywordsType == KeywordTypes
    {
      maxWordLen := 0;
      keywords := Keywords;
      keywordsType := KeywordTypes;
    }

    /** The keyword scanner after `init`. */
    ghost predicate Ready()
      reads this
    {
      maxWordLen == MaxLen(Keywords) && keywords == Keywords && keywordsType == KeywordTypes
    }

    /** `init`: raises `maxWordLen` to the length of the longest keyword. */
    method Init()
      requires maxWordLen == 0 && keywords == Keywords && keywordsType == KeywordTypes
      modifies this`maxWordLen
      ensures Ready() && maxWordLen == 6
    {
      var i := 0;
      while i < |keywords|
        invariant 0 <= i <= |keywords|
        invariant maxWordLen == MaxLen(keywords[..i])
      {
        assert keywords[..i + 1][..i] == keywords[..i];
        if |keywords[i]| > maxWordLen {
          maxWordLen := |keywords[i]|;
        }
        i := i + 1;
      }
      assert keywords[..i] == keywords;
      MaxWordLenIsSix();
    }

    /** `checkKeyword`: the kind paired with the keyword the buffer equals, or a plain line. */
    method CheckKeyword(buf: seq<byte>) returns (t: BufType)
      requires Ready()
      ensures t == KeywordType(buf)
    {
      KeywordTypePaired(buf);
      MaxWordLenIsSix();
      if |buf| <= maxWordLen {
        var i := 0;
        while i < |keywords|
          invariant 0 <= i <= |keywords|
          invariant buf !in keywords[..i]
        {
          if buf == keywords[i] {
            return keywordsType[i];
          }
          i := i + 1;
        }
        assert keywords[..i] == keywords;
      }
      return Line;
    }
  }
}
