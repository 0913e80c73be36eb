/**
 * Reading typed settings from the environment. The raw value of a variable is
 * an input (`None` when the variable is unset); `float(text)` is passed in as
 * a function that gives `None` where Python raises `ValueError`.
 */
module Settings {
  import opened Wrappers
  import opened Text

  /** Why a set variable could not be read: Python's `ValueError` on its text. */
  datatype EnvError = ValueError(raw: string)

  /** The spellings `env_bool` reads as true, after stripping and lower-casing. */
  predicate IsTrueWord(t: string) {
    t == "1" || t == "true" || t == "yes" || t == "on"
  }

  /** `env_bool`: the default when unset; otherwise true exactly for a true word, whatever the default. */
  function EnvBool(raw: Option<string>, default: bool): (b: bool)
    ensures raw.None? ==> b == default
    ensures raw.Some? ==> (b <==> IsTrueWord(Strip(Lower(raw.value))))
  {
    match raw
    case None => default
    case Some(value) => IsTrueWord(Strip(Lower(value)))
  }

  lemma UpperOfLetters(s: string)
    ensures Lower(Upper(s)) == Lower(s)
  {
  }

  /** Letter case and surrounding whitespace do not matter: " Yes " and "ON" are true. */
  lemma EnvBoolIgnoresCaseAndPadding(a: string, value: string, b: string, default: bool)
    requires AllSpace(a) && AllSpace(b)
    ensures EnvBool(Some(a + Upper(value) + b), default) == EnvBool(Some(value), !default)
  {
    var raw := a + Upper(value) + b;
    assert Lower(raw) == Lower(a) + Lower(Upper(value)) + Lower(b);
    assert Lower(a) == a && Lower(b) == b;
    UpperOfLetters(value);
    StripIgnoresPadding(a, Lower(value), b);
  }

  lemma LowerOfNoUpper(s: string)
    requires forall i :: 0 <= i < |s| ==> !IsAsciiUpper(s[i])
    ensures Lower(s) == s
  {
  }

  /** A set variable with any other text is false, even when the default is true. */
  lemma EnvBoolOtherWordIsFalse()
    ensures !EnvBool(Some("enabled"), true)
    ensures !EnvBool(Some(""), true)
  {
    LowerOfNoUpper("enabled");
    StripOfStripped("enabled");
    LowerOfNoUpper("");
    StripOfStripped("");
  }

  // ---------------------------------------------------------------- lists

  /** The stripped pieces that are not blank, in order. */
  function NonBlankItems(pieces: seq<string>): (items: seq<string>)
    ensures |items| <= |pieces|
    ensures forall k :: 0 <= k < |items| ==> items[k] != [] && Stripped(items[k])
  {
    if pieces == [] then []
    else (if Strip(pieces[0]) != [] then [Strip(pieces[0])] else []) + NonBlankItems(pieces[1..])
  }

  /** `env_list`: the unset default is read the same way as a set value. */
  function EnvList(raw: Option<string>, default: string): (items: seq<string>)
    ensures |items| <= CountChar(if raw.Some? then raw.value else default, ',') + 1
    ensures forall k :: 0 <= k < |items| ==> items[k] != [] && Stripped(items[k])
  {
    var text := if raw.Some? then raw.value else default;
    NonBlankItems(Split(text, ','))
  }

  /** No item carries a comma. */
  lemma {:induction false} NonBlankItemsHaveNoComma(pieces: seq<string>)
    requires forall k :: 0 <= k < |pieces| ==> ',' !in pieces[k]
    ensures forall k :: 0 <= k < |NonBlankItems(pieces)| ==> ',' !in NonBlankItems(pieces)[k]
  {
    if pieces != [] {
      NonBlankItemsHaveNoComma(pieces[1..]);
      var _, _ := StripSplit(pieces[0]);
    }
  }

  lemma EnvListHasNoComma(raw: Option<string>, default: string)
    ensures forall k :: 0 <= k < |EnvList(raw, default)| ==> ',' !in EnvList(raw, default)[k]
  {
    NonBlankItemsHaveNoComma(Split(if raw.Some? then raw.value else default, ','));
  }

  /** An unset variable with an empty default gives the empty list. */
  lemma EnvListOfEmptyDefault()
    ensures EnvList(None, "") == []
  {
    assert Split("", ',') == [""];
  }

  lemma HeadAndTail(s: seq<string>)
    requires |s| > 0
    ensures [s[0]] + s[1..] == s
  {
  }

  /** Items already stripped and not blank are kept as they are, in order. */
  lemma {:induction false} NonBlankItemsKeepsClean(pieces: seq<string>)
    requires forall k :: 0 <= k < |pieces| ==> pieces[k] != [] && Stripped(pieces[k])
    ensures NonBlankItems(pieces) == pieces
  {
    if pieces != [] {
      var rest := pieces[1..];
      assert Strip(pieces[0]) == pieces[0] by { StripOfStripped(pieces[0]); }
      assert NonBlankItems(rest) == rest by {
        assert forall k :: 0 <= k < |rest| ==> rest[k] == pieces[k + 1];
        NonBlankItemsKeepsClean(rest);
      }
      assert NonBlankItems(pieces) == [pieces[0]] + NonBlankItems(rest);
      HeadAndTail(pieces);
    }
  }

  /** Splitting after the first separator of a text whose head has none. */
  lemma {:induction false} SplitAfterFirst(x: string, y: string)
    requires ',' !in x
    ensures Split(x + [','] + y, ',') == [x] + Split(y, ',')
  {
    if x == [] {
      assert (x + [','] + y)[1..] == y;
    } else {
      SplitAfterFirst(x[1..], y);
      assert (x + [','] + y)[1..] == x[1..] + [','] + y;
      assert [x[0]] + x[1..] == x;
    }
  }

  /** Splitting a comma-joined list of comma-free items gives the items back. */
  lemma {:induction false} SplitJoin(items: seq<string>)
    requires |items| > 0
    requires forall k :: 0 <= k < |items| ==> ',' !in items[k]
    ensures Split(Join(items, ','), ',') == items
  {
    if |items| == 1 {
      SplitWithoutSep(items[0], ',');
    } else {
      SplitJoin(items[1..]);
      SplitAfterFirst(items[0], Join(items[1..], ','));
    }
  }

  /** A comma-joined list of clean items reads back as that list. */
  lemma EnvListOfJoin(items: seq<string>, default: string)
    requires |items| > 0
    requires forall k :: 0 <= k < |items| ==> items[k] != [] && Stripped(items[k]) && ',' !in items[k]
    ensures EnvList(Some(Join(items, ',')), default) == items
  {
    SplitJoin(items);
    NonBlankItemsKeepsClean(items);
  }

  /** The pieces `lead[k] + words[k] + trail[k]` read as the non-empty words, in order. */
  lemma {:induction false} NonBlankItemsOfPadded(pieces: seq<string>, lead: seq<string>, words: seq<string>, trail: seq<string>)
    requires |lead| == |pieces| && |words| == |pieces| && |trail| == |pieces|
    requires forall k :: 0 <= k < |pieces| ==>
      && pieces[k] == lead[k] + words[k] + trail[k]
      && AllSpace(lead[k]) && AllSpace(trail[k]) && Stripped(words[k])
    ensures NonBlankItems(pieces) == NonEmpty(words)
  {
    if pieces != [] {
      StripPadded(lead[0], words[0], trail[0]);
      NonBlankItemsOfPadded(pieces[1..], lead[1..], words[1..], trail[1..]);
    }
  }

  lemma NoCommaInPadded(a: string, x: string, b: string)
    requires AllSpace(a) && AllSpace(b) && ',' !in x
    ensures ',' !in a + x + b
  {
    assert !IsSpace(',');
  }

  /**
   * A comma-joined list reads back piece by piece: the whitespace around each
   * piece is stripped, pieces left blank are dropped, and the order is kept.
   */
  lemma EnvListOfPaddedJoin(pieces: seq<string>, lead: seq<string>, words: seq<string>, trail: seq<string>,
                            default: string)
    requires |pieces| > 0
    requires |lead| == |pieces| && |words| == |pieces| && |trail| == |pieces|
    requires forall k :: 0 <= k < |pieces| ==>
      && pieces[k] == lead[k] + words[k] + trail[k]
      && AllSpace(lead[k]) && AllSpace(trail[k]) && Stripped(words[k]) && ',' !in words[k]
    ensures EnvList(Some(Join(pieces, ',')), default) == NonEmpty(words)
  {
    forall k | 0 <= k < |pieces| ensures ',' !in pieces[k] {
      NoCommaInPadded(lead[k], words[k], trail[k]);
    }
    SplitJoin(pieces);
    NonBlankItemsOfPadded(pieces, lead, words, trail);
  }

  lemma JoinOfPaddedPieces()
    ensures Join([" a ", " ", "b "], ',') == " a , ,b "
  {
    var pieces := [" a ", " ", "b "];
    assert Join(pieces[2..], ',') == "b ";
    assert Join(pieces[1..], ',') == " " + [','] + "b ";
  }

  lemma NonEmptyOfWords()
    ensures NonEmpty(["a", "", "b"]) == ["a", "b"]
  {
    var words := ["a", "", "b"];
    assert NonEmpty(words[2..]) == ["b"];
    assert NonEmpty(words[1..]) == ["b"];
  }

  /** " a , ,b " reads as ["a", "b"]. */
  lemma EnvListOfPaddedText()
    ensures EnvList(Some(" a , ,b "), "") == ["a", "b"]
  {
    var pieces, lead, words, trail := [" a ", " ", "b "], [" ", " ", ""], ["a", "", "b"], [" ", "", " "];
    assert forall k :: 0 <= k < 3 ==> pieces[k] == lead[k] + words[k] + trail[k];
    JoinOfPaddedPieces();
    NonEmptyOfWords();
    EnvListOfPaddedJoin(pieces, lead, words, trail, "");
  }

  // ---------------------------------------------------------------- numbers

  /** `env_int`: the default when unset, otherwise `int(raw)`. */
  function EnvInt(raw: Option<string>, default: int): (r: Result<int, EnvError>)
    ensures raw.None? ==> r == Ok(default)
    ensures raw.Some? ==> (r.Ok? <==> ParseInt(raw.value).Some?)
    ensures raw.Some? && r.Ok? ==> ParseInt(raw.value) == Some(r.value) && Strip(raw.value) != []
    ensures raw.Some? && r.Err? ==> r.error == ValueError(raw.value)
  {
    match raw
    case None => Ok(default)
    case Some(value) =>
      match ParseInt(value)
      case Some(n) => Ok(n)
      case None => Err(ValueError(value))
  }

  /** The decimal text of any integer reads back as that integer. */
  lemma EnvIntOfDecimal(n: int, default: int)
    ensures EnvInt(Some(IntToDecimal(n)), default) == Ok(n)
  {
    ParseIntOfDecimal(n);
  }

  /** A blank value is an error, not the default. */
  lemma EnvIntOfBlank(raw: string, default: int)
    requires AllSpace(raw)
    ensures EnvInt(Some(raw), default) == Err(ValueError(raw))
  {
    StripOfAllSpace(raw);
  }

  /** `env_float`: the default when unset, otherwise `float(raw)`. */
  function EnvFloat(raw: Option<string>, default: real, parseFloat: string -> Option<real>): (r: Result<real, EnvError>)
    ensures raw.None? ==> r == Ok(default)
    ensures raw.Some? ==> (r.Ok? <==> parseFloat(raw.value).Some?)
    ensures raw.Some? && r.Ok? ==> parseFloat(raw.value) == Some(r.value)
    ensures raw.Some? && r.Err? ==> r.error == ValueError(raw.value)
  {
    match raw
    case None => Ok(default)
    case Some(value) =>
      match parseFloat(value)
      case Some(x) => Ok(x)
      case None => Err(ValueError(value))
  }

  /** Blank after stripping. */
  predicate Blank(s: string) { Strip(s) == [] }

  /** `env_optional_float`: the default when unset or blank, otherwise `float(raw)`. */
  function EnvOptionalFloat(raw: Option<string>, default: Option<real>, parseFloat: string -> Option<real>)
    : (r: Result<Option<real>, EnvError>)
    ensures raw.None? || Blank(raw.value) ==> r == Ok(default)
    ensures raw.Some? && !Blank(raw.value) ==> (r.Ok? <==> parseFloat(raw.value).Some?)
    ensures raw.Some? && !Blank(raw.value) && r.Ok? ==> r.value == parseFloat(raw.value)
    ensures raw.Some? && !Blank(raw.value) && r.Err? ==> r.error == ValueError(raw.value)
  {
    if raw.None? || Strip(raw.value) == [] then Ok(default)
    else
      match parseFloat(raw.value)
      case Some(x) => Ok(Some(x))
      case None => Err(ValueError(raw.value))
  }

  /** Whitespace alone never reaches the float parser: it means "use the default". */
  lemma EnvOptionalFloatOfWhitespace(raw: string, default: Option<real>, parseFloat: string -> Option<real>)
    requires AllSpace(raw)
    ensures EnvOptionalFloat(Some(raw), default, parseFloat) == Ok(default)
  {
    StripOfAllSpace(raw);
  }

  /** The shipped default host list reads as its three hosts. */
  lemma ShippedAllowedHosts()
    ensures EnvList(None, "127.0.0.1,localhost,testserver") == ["127.0.0.1", "localhost", "testserver"]
  {
    var items := ["127.0.0.1", "localhost", "testserver"];
    assert Join(items[2..], ',') == "testserver";
    assert Join(items[1..], ',') == "localhost" + [','] + "testserver";
    assert Join(items, ',') == "127.0.0.1,localhost,testserver";
    assert forall k :: 0 <= k < |items| ==> items[k] != [] && Stripped(items[k]) && ',' !in items[k];
    EnvListOfJoin(items, "");
  }
}
