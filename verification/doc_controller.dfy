/** The pure pieces of the document controller: the language-name
    normalisation applied to uploads and searches, and the rule that sets a
    listed document's owner flag. */
module DocController {
  import opened Wrappers

  /** The controller's UnsupportedLanguageException, carrying the lower-cased
      name it rejected. */
  datatype UnsupportedLanguage = UnsupportedLanguage(language: string)

  /** ASCII lower-casing of one character. */
  function LowerChar(c: char): char {
    if 'A' <= c <= 'Z' then (c as int + 32) as char else c
  }

  /** Two names that differ at most in the case of ASCII letters. */
  ghost predicate SameIgnoringCase(s: string, t: string) {
    |s| == |t| && forall i :: 0 <= i < |s| ==> LowerChar(s[i]) == LowerChar(t[i])
  }

  /** A name without ASCII capitals. */
  ghost predicate NoAsciiUpper(s: string) {
    forall i :: 0 <= i < |s| ==> !('A' <= s[i] <= 'Z')
  }

  /** ASCII lower-casing of a string: the same name up to case, with no
      capital left. */
  function ToLowerAscii(s: string): (r: string)
    ensures SameIgnoringCase(s, r)
    ensures NoAsciiUpper(r)
  {
    seq(|s|, i requires 0 <= i < |s| => LowerChar(s[i]))
  }

  /** Those two properties determine the lower-cased form: a capital-free
      name equal to `s` up to case is `ToLowerAscii(s)`. */
  lemma ToLowerAsciiUnique(s: string, t: string)
    requires SameIgnoringCase(s, t) && NoAsciiUpper(t)
    ensures t == ToLowerAscii(s)
  {
    var r := ToLowerAscii(s);
    forall i | 0 <= i < |t| ensures t[i] == r[i] {
      assert LowerChar(t[i]) == t[i];
      assert LowerChar(r[i]) == r[i];
    }
  }

  /** The canonical language names the OCR configuration accepts. */
  const CanonicalLanguages: set<string> := {"english", "czech", "slovak"}

  /** The accepted spellings, lower-case, and the canonical name each stands
      for. */
  const LanguageAliases: map<string, string> := map[
    "english" := "english", "eng" := "english",
    "czech" := "czech", "cz" := "czech", "czk" := "czech",
    "slovak" := "slovak", "svk" := "slovak"
  ]

  /** Normalises a user-supplied language name: lower-cases it and maps each
      accepted alias to its canonical name; anything else is rejected with
      the lower-cased name. */
  function ConvertLanguageName(language: string): (r: Result<string, UnsupportedLanguage>)
    ensures r.Success? <==> ToLowerAscii(language) in LanguageAliases
    ensures r.Success? ==> r.value == LanguageAliases[ToLowerAscii(language)] && r.value in CanonicalLanguages
    ensures r.Failure? ==> r.error == UnsupportedLanguage(ToLowerAscii(language))
  {
    var lower := ToLowerAscii(language);
    if lower == "english" || lower == "eng" then Success("english")
    else if lower == "czech" || lower == "cz" || lower == "czk" then Success("czech")
    else if lower == "slovak" || lower == "svk" then Success("slovak")
    else Failure(UnsupportedLanguage(lower))
  }

  /** Lower-casing twice is lower-casing once. */
  lemma ToLowerAsciiIdempotent(s: string)
    ensures ToLowerAscii(ToLowerAscii(s)) == ToLowerAscii(s)
  {
    var once := ToLowerAscii(s);
    ToLowerAsciiUnique(once, once);
  }

  /** Matching ignores the case of ASCII letters: names that differ only in
      case are normalised alike, and a name is normalised like its
      lower-cased form. */
  lemma ConvertLanguageNameCaseInsensitive(s: string, t: string)
    requires SameIgnoringCase(s, t)
    ensures ConvertLanguageName(s) == ConvertLanguageName(t)
    ensures ConvertLanguageName(s) == ConvertLanguageName(ToLowerAscii(s))
  {
    assert ToLowerAscii(s) == ToLowerAscii(t);
    ToLowerAsciiIdempotent(s);
  }

  /** The output of a successful normalisation is canonical and normalises to
      itself, so normalisation is idempotent. */
  lemma ConvertLanguageNameIdempotent(language: string)
    requires ConvertLanguageName(language).Success?
    ensures ConvertLanguageName(ConvertLanguageName(language).value) == ConvertLanguageName(language)
  {
    var out := ConvertLanguageName(language).value;
    assert out in CanonicalLanguages;
    assert ToLowerAscii("english") == "english";
    assert ToLowerAscii("czech") == "czech";
    assert ToLowerAscii("slovak") == "slovak";
  }

  /** Normalises the search languages in list order. A non-empty list is
      rebuilt element by element; the first unsupported name rejects the
      whole request. An empty list is left as it is. */
  function NormalizeSearchLanguages(languages: seq<string>): (r: Result<seq<string>, UnsupportedLanguage>)
    ensures r.Success? <==> forall i :: 0 <= i < |languages| ==> ConvertLanguageName(languages[i]).Success?
    ensures r.Success? ==> |r.value| == |languages|
    ensures r.Success? ==>
      forall i :: 0 <= i < |languages| ==> ConvertLanguageName(languages[i]) == Success(r.value[i])
    ensures r.Failure? ==>
      exists i :: 0 <= i < |languages| && ConvertLanguageName(languages[i]) == Failure(r.error)
        && (forall j :: 0 <= j < i ==> ConvertLanguageName(languages[j]).Success?)
    decreases |languages|
  {
    if languages == [] then Success(languages)
    else
      match ConvertLanguageName(languages[0])
      case Failure(e) => Failure(e)
      case Success(first) =>
        match NormalizeSearchLanguages(languages[1..])
        case Failure(e) =>
          assert forall j :: 1 <= j < |languages| ==> languages[1..][j - 1] == languages[j];
          Failure(e)
        case Success(rest) =>
          assert forall j :: 1 <= j < |languages| ==> languages[1..][j - 1] == languages[j];
          Success([first] + rest)
  }

  /** Normalising an already normalised search list returns it unchanged. */
  lemma {:induction false} NormalizeSearchLanguagesIdempotent(languages: seq<string>)
    requires NormalizeSearchLanguages(languages).Success?
    ensures NormalizeSearchLanguages(NormalizeSearchLanguages(languages).value)
         == NormalizeSearchLanguages(languages)
  {
    var out := NormalizeSearchLanguages(languages).value;
    forall i | 0 <= i < |out| ensures ConvertLanguageName(out[i]) == Success(out[i]) {
      ConvertLanguageNameIdempotent(languages[i]);
    }
    NormalizedIsFixed(out);
  }

  /** A list whose every element normalises to itself normalises to itself. */
  lemma {:induction false} NormalizedIsFixed(languages: seq<string>)
    requires forall i :: 0 <= i < |languages| ==> ConvertLanguageName(languages[i]) == Success(languages[i])
    ensures NormalizeSearchLanguages(languages) == Success(languages)
    decreases |languages|
  {
    if languages != [] {
      var tail := languages[1..];
      assert forall i :: 0 <= i < |tail| ==> tail[i] == languages[i + 1];
      NormalizedIsFixed(tail);
      assert languages == [languages[0]] + tail;
    }
  }

  /** A user account; its id may be unset (null). */
  datatype User = User(id: Option<string>)

  /** The NullPointerException raised when a document's owner has no id. */
  datatype NullPointer = NullPointer

  /** The owner flag of a listed document for the connected user. Absent
      user or owner give false; an owner without an id fails, because the
      comparison is made on the owner's id; otherwise the flag is whether the
      two ids are equal (an unset user id equals nothing). */
  function IsOwner(user: Option<User>, owner: Option<User>): (r: Result<bool, NullPointer>)
    ensures r == Success(true) <==>
              user.Some? && owner.Some? && owner.value.id.Some? && owner.value.id == user.value.id
    ensures r.Failure? <==> user.Some? && owner.Some? && owner.value.id.None?
  {
    if user.None? then Success(false)
    else if owner.None? then Success(false)
    else
      match owner.value.id
      case None => Failure(NullPointer)
      case Some(ownerId) => Success(user.value.id == Some(ownerId))
  }
}
