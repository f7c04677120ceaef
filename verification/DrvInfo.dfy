/** The text a record link hands to the driver, and the two places that cut
    the PLC symbol name out of it. */
module DrvInfo {
  import opened Bytes

  const MAX_FIELD := 127

  predicate IsSpace(c: char) {
    c == ' ' || '\t' <= c <= '\r'
  }

  /** Position of the last `c` in `s`, or -1: strrchr and rfind. */
  function LastIndex(s: string, c: char): (i: int)
    ensures -1 <= i < |s|
    ensures 0 <= i ==> s[i] == c
    ensures forall j :: i < j < |s| ==> s[j] != c
  {
    if s == [] then -1
    else if s[|s| - 1] == c then |s| - 1
    else LastIndex(s[..|s| - 1], c)
  }

  /** validateDrvInfo: a '?' or a '=' whose last occurrence is the last character. */
  predicate IsValid(drvInfo: string) {
    |drvInfo| != 0
    && (var read := LastIndex(drvInfo, '?');
        var write := LastIndex(drvInfo, '=');
        (read >= 0 && |drvInfo[read..]| == 1) || (write >= 0 && |drvInfo[write..]| == 1))
  }

  /** The part after the last '/', or everything. */
  function LastToken(drvInfo: string): (token: string)
    ensures '/' !in token
    ensures |token| <= |drvInfo|
    ensures |token| < |drvInfo| ==> drvInfo[|drvInfo| - |token| - 1] == '/'
    ensures drvInfo[|drvInfo| - |token|..] == token
  {
    drvInfo[LastIndex(drvInfo, '/') + 1..]
  }

  predicate HasOptions(drvInfo: string) {
    '/' in drvInfo
  }

  /** resolveSymbolInfo: the name gathered for the batched request. */
  function BatchName(drvInfo: string): string {
    var sym := LastToken(drvInfo);
    if sym != "" && (sym[|sym| - 1] == '?' || sym[|sym| - 1] == '=') then sym[..|sym| - 1] else sym
  }

  function SkipSpaces(s: string): string {
    if s != "" && IsSpace(s[0]) then SkipSpaces(s[1..]) else s
  }

  function TakeWord(s: string, width: nat): (w: string)
    ensures |w| <= width && |w| <= |s|
  {
    if s == "" || width == 0 || IsSpace(s[0]) then "" else [s[0]] + TakeWord(s[1..], width - 1)
  }

  /** sscanf "%127s": skip white space, then take up to 127 other characters; nothing to take is a failure. */
  function ScanWord(s: string): Option<string> {
    var word := TakeWord(SkipSpaces(s), MAX_FIELD);
    if word == "" then None else Some(word)
  }

  /** parsePlcInfofromDrvInfo: the address string kept with the parameter. */
  function PlcAddress(drvInfo: string): Option<string>
    requires drvInfo != ""
  {
    if HasOptions(drvInfo) then
      match ScanWord(LastToken(drvInfo))
      case None => None
      case Some(word) => Some(word[..|word| - 1])
    else
      Some(drvInfo[..|drvInfo| - 1])
  }

  lemma ValidEndsInMark(drvInfo: string)
    ensures IsValid(drvInfo) <==> drvInfo != "" && drvInfo[|drvInfo| - 1] in {'?', '='}
  {
  }

  lemma {:induction false} TakeWordPlain(s: string, width: nat)
    requires forall c :: c in s ==> !IsSpace(c)
    ensures TakeWord(s, width) == if |s| <= width then s else s[..width]
  {
    if s != "" && width != 0 {
      assert s[0] in s;
      forall c | c in s[1..] ensures !IsSpace(c) { assert c in s; }
      TakeWordPlain(s[1..], width - 1);
      assert s == [s[0]] + s[1..];
      if |s| > width {
        assert s[..width] == [s[0]] + s[1..][..width - 1];
      }
    }
  }

  lemma {:induction false} TakeWordStops(s: string, width: nat)
    requires exists i :: 0 <= i < |s| && IsSpace(s[i])
    ensures |TakeWord(s, width)| < |s|
  {
    var i :| 0 <= i < |s| && IsSpace(s[i]);
    if width != 0 && !IsSpace(s[0]) {
      assert IsSpace(s[1..][i - 1]);
      TakeWordStops(s[1..], width - 1);
    }
  }

  lemma {:induction false} SkipSpacesShrinks(s: string)
    ensures |SkipSpaces(s)| <= |s|
    ensures s != "" && IsSpace(s[0]) ==> |SkipSpaces(s)| < |s|
    ensures s != "" && !IsSpace(s[|s| - 1]) ==> SkipSpaces(s) != "" && !IsSpace(SkipSpaces(s)[0])
  {
    if s != "" && IsSpace(s[0]) {
      SkipSpacesShrinks(s[1..]);
    }
  }

  /** White space in front, then the word, which ends at white space, at 127 characters or with the text. */
  ghost predicate WordOf(s: string, spaces: string, word: string, rest: string) {
    && s == spaces + word + rest && word != "" && |word| <= 127
    && (forall i :: 0 <= i < |spaces| ==> spaces[i] as int == 32 || 9 <= spaces[i] as int <= 13)
    && (forall i :: 0 <= i < |word| ==> word[i] as int != 32 && !(9 <= word[i] as int <= 13))
    && (rest != "" && |word| < 127 ==> rest[0] as int == 32 || 9 <= rest[0] as int <= 13)
  }

  lemma {:induction false} SpacesSkipped(s: string) returns (spaces: string)
    ensures s == spaces + SkipSpaces(s) && forall i :: 0 <= i < |spaces| ==> IsSpace(spaces[i])
    ensures SkipSpaces(s) != "" ==> !IsSpace(SkipSpaces(s)[0])
  {
    if s != "" && IsSpace(s[0]) {
      var more := SpacesSkipped(s[1..]);
      spaces := [s[0]] + more;
      assert s == [s[0]] + s[1..];
    } else {
      spaces := "";
    }
  }

  lemma {:induction false} WordTaken(s: string, width: nat)
    ensures var word := TakeWord(s, width);
            && word <= s && (forall i :: 0 <= i < |word| ==> !IsSpace(word[i]))
            && (|word| < width && |word| < |s| ==> IsSpace(s[|word|]))
  {
    if s != "" && width != 0 && !IsSpace(s[0]) {
      WordTaken(s[1..], width - 1);
      assert s == [s[0]] + s[1..];
    }
  }

  lemma ScanWordMeans(s: string) returns (spaces: string, rest: string)
    ensures ScanWord(s).Some? ==> WordOf(s, spaces, ScanWord(s).value, rest)
    ensures ScanWord(s).None? ==> forall i :: 0 <= i < |s| ==> s[i] as int == 32 || 9 <= s[i] as int <= 13
  {
    spaces := SpacesSkipped(s);
    var text := SkipSpaces(s);
    var word := TakeWord(text, MAX_FIELD);
    WordTaken(text, MAX_FIELD);
    rest := text[|word|..];
    assert text == word + rest;
    assert s == spaces + word + rest;
  }

  /** What each extractor cuts out of a valid link. The batched name is the part
      behind the last '/' without its mark. The parameter's address is the whole
      link without its mark if there is no '/', else the first word of that part
      without its last character. */
  lemma ExtractorsMean(drvInfo: string)
    requires IsValid(drvInfo)
    ensures var token := LastToken(drvInfo); token != "" && BatchName(drvInfo) == token[..|token| - 1]
    ensures '/' !in drvInfo ==> PlcAddress(drvInfo) == Some(drvInfo[..|drvInfo| - 1])
    ensures '/' in drvInfo ==>
              exists spaces, word, rest ::
                WordOf(LastToken(drvInfo), spaces, word, rest) && PlcAddress(drvInfo) == Some(word[..|word| - 1])
  {
    ValidEndsInMark(drvInfo);
    var token := LastToken(drvInfo);
    assert token != "" && token[|token| - 1] == drvInfo[|drvInfo| - 1];
    var spaces, rest := ScanWordMeans(token);
    if HasOptions(drvInfo) {
      ExtractorsAgreeIff(drvInfo);
      assert WordOf(token, spaces, ScanWord(token).value, rest);
    }
  }

  /** The two extractors give one name exactly when the address has no option
      part, or its last token is free of white space and at most 127 characters
      long, mark included. */
  lemma ExtractorsAgreeIff(drvInfo: string)
    requires IsValid(drvInfo)
    ensures PlcAddress(drvInfo).Some?
    ensures PlcAddress(drvInfo).value == BatchName(drvInfo)
            <==> '/' !in drvInfo
                 || (|LastToken(drvInfo)| <= 127
                     && forall c :: c in LastToken(drvInfo) ==> c as int != 32 && !(9 <= c as int <= 13))
  {
    AgreeAtSpaces(drvInfo);
    var token := LastToken(drvInfo);
    assert forall c :: c in token ==> (IsSpace(c) <==> c as int == 32 || 9 <= c as int <= 13);
  }

  lemma AgreeAtSpaces(drvInfo: string)
    requires IsValid(drvInfo)
    ensures PlcAddress(drvInfo).Some?
    ensures PlcAddress(drvInfo).value == BatchName(drvInfo)
            <==> !HasOptions(drvInfo)
                 || (|LastToken(drvInfo)| <= MAX_FIELD && forall c :: c in LastToken(drvInfo) ==> !IsSpace(c))
  {
    TokenMarked(drvInfo);
    if HasOptions(drvInfo) {
      WordIsTokenIff(LastToken(drvInfo));
      AddressBehindSlash(drvInfo);
    } else {
      TokenIsAll(drvInfo);
    }
  }

  lemma AddressBehindSlash(drvInfo: string)
    requires drvInfo != "" && HasOptions(drvInfo)
    ensures var word := ScanWord(LastToken(drvInfo));
            PlcAddress(drvInfo) == if word.None? then None else Some(word.value[..|word.value| - 1])
  {
  }

  lemma TokenIsAll(drvInfo: string)
    requires drvInfo != "" && !HasOptions(drvInfo)
    ensures LastToken(drvInfo) == drvInfo && PlcAddress(drvInfo) == Some(drvInfo[..|drvInfo| - 1])
  {
  }

  lemma TokenMarked(drvInfo: string)
    requires IsValid(drvInfo)
    ensures var token := LastToken(drvInfo);
            && token != "" && !IsSpace(token[|token| - 1]) && BatchName(drvInfo) == token[..|token| - 1]
  {
    ValidEndsInMark(drvInfo);
    TokenEnd(drvInfo, LastToken(drvInfo));
  }

  lemma TokenEnd(drvInfo: string, token: string)
    requires drvInfo != "" && drvInfo[|drvInfo| - 1] != '/' && |token| <= |drvInfo|
    requires drvInfo[|drvInfo| - |token|..] == token
    requires |token| < |drvInfo| ==> drvInfo[|drvInfo| - |token| - 1] == '/'
    ensures token != "" && token[|token| - 1] == drvInfo[|drvInfo| - 1]
  {
  }

  /** The word found is as long as the text exactly when the text is one word that is not too long. */
  lemma WordIsTokenIff(token: string)
    requires token != "" && !IsSpace(token[|token| - 1])
    ensures ScanWord(token).Some?
    ensures ScanWord(token).value[..|ScanWord(token).value| - 1] == token[..|token| - 1]
            <==> |token| <= MAX_FIELD && forall c :: c in token ==> !IsSpace(c)
  {
    SkipSpacesShrinks(token);
    if forall c :: c in token ==> !IsSpace(c) {
      assert token[0] in token;
      TakeWordPlain(token, MAX_FIELD);
    } else {
      var c :| c in token && IsSpace(c);
      var i :| 0 <= i < |token| && token[i] == c;
      if !IsSpace(token[0]) {
        TakeWordStops(token, MAX_FIELD);
      }
      assert |TakeWord(SkipSpaces(token), MAX_FIELD)| < |token|;
    }
  }
}
