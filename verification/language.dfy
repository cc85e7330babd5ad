/**
 * `FactChecker._detect_language`: a text is Vietnamese when, lower-cased, it holds
 * one of the letters with Vietnamese diacritics, or when more than a fifth of its
 * words are common Vietnamese words; otherwise it is English.
 */
module Language {
  import opened Strings

  datatype Language = English | Vietnamese

  /** The name the prompt uses for a language. */
  function Name(l: Language): string {
    match l
    case English => "English"
    case Vietnamese => "Vietnamese"
  }

  /** The 67 lower-case letters with Vietnamese diacritics of line 175, in the order
      the source lists them. */
  predicate IsVietnameseLetter(c: char) {
    c == 'á' || c == 'à' || c == 'ạ' || c == 'ả' || c == 'ã' || c == 'â' || c == 'ấ' || c == 'ầ'
    || c == 'ậ' || c == 'ẩ' || c == 'ẫ' || c == 'ă' || c == 'ắ' || c == 'ằ' || c == 'ặ' || c == 'ẳ'
    || c == 'ẵ' || c == 'é' || c == 'è' || c == 'ẹ' || c == 'ẻ' || c == 'ẽ' || c == 'ê' || c == 'ế'
    || c == 'ề' || c == 'ệ' || c == 'ể' || c == 'ễ' || c == 'í' || c == 'ì' || c == 'ị' || c == 'ỉ'
    || c == 'ĩ' || c == 'ó' || c == 'ò' || c == 'ọ' || c == 'ỏ' || c == 'õ' || c == 'ô' || c == 'ố'
    || c == 'ồ' || c == 'ộ' || c == 'ổ' || c == 'ỗ' || c == 'ơ' || c == 'ớ' || c == 'ờ' || c == 'ợ'
    || c == 'ở' || c == 'ỡ' || c == 'ú' || c == 'ù' || c == 'ụ' || c == 'ủ' || c == 'ũ' || c == 'ư'
    || c == 'ứ' || c == 'ừ' || c == 'ự' || c == 'ử' || c == 'ữ' || c == 'ý' || c == 'ỳ' || c == 'ỵ'
    || c == 'ỷ' || c == 'ỹ' || c == 'đ'
  }

  /** Their upper-case counterparts, which `lower()` maps onto them. */
  predicate IsVietnameseCapital(c: char) {
    c == 'Á' || c == 'À' || c == 'Ạ' || c == 'Ả' || c == 'Ã' || c == 'Â' || c == 'Ấ' || c == 'Ầ'
    || c == 'Ậ' || c == 'Ẩ' || c == 'Ẫ' || c == 'Ă' || c == 'Ắ' || c == 'Ằ' || c == 'Ặ' || c == 'Ẳ'
    || c == 'Ẵ' || c == 'É' || c == 'È' || c == 'Ẹ' || c == 'Ẻ' || c == 'Ẽ' || c == 'Ê' || c == 'Ế'
    || c == 'Ề' || c == 'Ệ' || c == 'Ể' || c == 'Ễ' || c == 'Í' || c == 'Ì' || c == 'Ị' || c == 'Ỉ'
    || c == 'Ĩ' || c == 'Ó' || c == 'Ò' || c == 'Ọ' || c == 'Ỏ' || c == 'Õ' || c == 'Ô' || c == 'Ố'
    || c == 'Ồ' || c == 'Ộ' || c == 'Ổ' || c == 'Ỗ' || c == 'Ơ' || c == 'Ớ' || c == 'Ờ' || c == 'Ợ'
    || c == 'Ở' || c == 'Ỡ' || c == 'Ú' || c == 'Ù' || c == 'Ụ' || c == 'Ủ' || c == 'Ũ' || c == 'Ư'
    || c == 'Ứ' || c == 'Ừ' || c == 'Ự' || c == 'Ử' || c == 'Ữ' || c == 'Ý' || c == 'Ỳ' || c == 'Ỵ'
    || c == 'Ỷ' || c == 'Ỹ' || c == 'Đ'
  }

  /** The same letters by code point: the Latin-1 letters à á â ã è é ê ì í ò ó ô õ ù ú ý,
      then ă đ ĩ ũ ơ ư, then every odd code point from U+1EA1 (ạ) to U+1EF9 (ỹ). Each
      capital sits 32 code points below its letter in Latin-1 and one below it elsewhere. */
  predicate InLetterBlocks(c: char) {
    ('à' <= c <= 'ã') || ('è' <= c <= 'ê') || c == 'ì' || c == 'í'
    || ('ò' <= c <= 'õ') || c == 'ù' || c == 'ú' || c == 'ý'
    || c == 'ă' || c == 'đ' || c == 'ĩ' || c == 'ũ' || c == 'ơ' || c == 'ư'
    || ('ạ' <= c <= 'ỹ' && c as int % 2 == 1)
  }

  lemma LetterBlocks(c: char)
    ensures IsVietnameseLetter(c) <==> InLetterBlocks(c)
  {
    if 'ạ' <= c <= 'ỹ' && c as int % 2 == 1 {
      assert c == '\U{1EA1}' || c == '\U{1EA3}' || c == '\U{1EA5}' || c == '\U{1EA7}' || c == '\U{1EA9}' || c == '\U{1EAB}' || c == '\U{1EAD}' || c == '\U{1EAF}' || c == '\U{1EB1}' || c == '\U{1EB3}' || c == '\U{1EB5}' || c == '\U{1EB7}' || c == '\U{1EB9}' || c == '\U{1EBB}' || c == '\U{1EBD}' || c == '\U{1EBF}' || c == '\U{1EC1}' || c == '\U{1EC3}' || c == '\U{1EC5}' || c == '\U{1EC7}' || c == '\U{1EC9}' || c == '\U{1ECB}' || c == '\U{1ECD}' || c == '\U{1ECF}' || c == '\U{1ED1}' || c == '\U{1ED3}' || c == '\U{1ED5}' || c == '\U{1ED7}' || c == '\U{1ED9}' || c == '\U{1EDB}' || c == '\U{1EDD}' || c == '\U{1EDF}' || c == '\U{1EE1}' || c == '\U{1EE3}' || c == '\U{1EE5}' || c == '\U{1EE7}' || c == '\U{1EE9}' || c == '\U{1EEB}' || c == '\U{1EED}' || c == '\U{1EEF}' || c == '\U{1EF1}' || c == '\U{1EF3}' || c == '\U{1EF5}' || c == '\U{1EF7}' || c == '\U{1EF9}';
    }
  }

  /** The capitals by code point, as InLetterBlocks describes them. */
  predicate InCapitalBlocks(c: char) {
    ('À' <= c <= 'Ã') || ('È' <= c <= 'Ê') || c == 'Ì' || c == 'Í'
    || ('Ò' <= c <= 'Õ') || c == 'Ù' || c == 'Ú' || c == 'Ý'
    || c == 'Ă' || c == 'Đ' || c == 'Ĩ' || c == 'Ũ' || c == 'Ơ' || c == 'Ư'
    || ('Ạ' <= c <= 'Ỹ' && c as int % 2 == 0)
  }

  lemma CapitalBlocks(c: char)
    ensures IsVietnameseCapital(c) <==> InCapitalBlocks(c)
  {
    if 'Ạ' <= c <= 'Ỹ' && c as int % 2 == 0 {
      assert c == '\U{1EA0}' || c == '\U{1EA2}' || c == '\U{1EA4}' || c == '\U{1EA6}' || c == '\U{1EA8}' || c == '\U{1EAA}' || c == '\U{1EAC}' || c == '\U{1EAE}' || c == '\U{1EB0}' || c == '\U{1EB2}' || c == '\U{1EB4}' || c == '\U{1EB6}' || c == '\U{1EB8}' || c == '\U{1EBA}' || c == '\U{1EBC}' || c == '\U{1EBE}' || c == '\U{1EC0}' || c == '\U{1EC2}' || c == '\U{1EC4}' || c == '\U{1EC6}' || c == '\U{1EC8}' || c == '\U{1ECA}' || c == '\U{1ECC}' || c == '\U{1ECE}' || c == '\U{1ED0}' || c == '\U{1ED2}' || c == '\U{1ED4}' || c == '\U{1ED6}' || c == '\U{1ED8}' || c == '\U{1EDA}' || c == '\U{1EDC}' || c == '\U{1EDE}' || c == '\U{1EE0}' || c == '\U{1EE2}' || c == '\U{1EE4}' || c == '\U{1EE6}' || c == '\U{1EE8}' || c == '\U{1EEA}' || c == '\U{1EEC}' || c == '\U{1EEE}' || c == '\U{1EF0}' || c == '\U{1EF2}' || c == '\U{1EF4}' || c == '\U{1EF6}' || c == '\U{1EF8}';
    }
  }

  /** Python's `c.lower()` for the characters that can change the outcome: ASCII
      capitals, the Vietnamese capitals, and U+212A KELVIN SIGN, which lowers to `k`. */
  function LowerChar(c: char): (r: char)
    ensures InLetterBlocks(r) <==> InLetterBlocks(c) || InCapitalBlocks(c)
    ensures InLetterBlocks(c) ==> r == c
    ensures IsSpace(r) <==> IsSpace(c)
  {
    if 'A' <= c <= 'Z' || ('À' <= c <= 'Ý' && InCapitalBlocks(c)) then (c as int + 32) as char
    else if InCapitalBlocks(c) then (c as int + 1) as char
    else if c == '\U{212A}' then 'k'
    else c
  }

  /** `lower()` yields a Vietnamese letter exactly from a Vietnamese letter or its
      capital. */
  lemma LowerCharLetters(c: char)
    ensures IsVietnameseLetter(LowerChar(c)) <==> IsVietnameseLetter(c) || IsVietnameseCapital(c)
    ensures IsVietnameseLetter(c) ==> LowerChar(c) == c
  {
    LetterBlocks(c);
    CapitalBlocks(c);
    LetterBlocks(LowerChar(c));
  }

  /** `lower()` takes each capital of line 175's letters to its own letter. */
  lemma LowerCapitals()
    ensures LowerChar('Á') == 'á' && LowerChar('À') == 'à' && LowerChar('Ạ') == 'ạ' && LowerChar('Ả') == 'ả'
    ensures LowerChar('Ã') == 'ã' && LowerChar('Â') == 'â' && LowerChar('Ấ') == 'ấ' && LowerChar('Ầ') == 'ầ'
    ensures LowerChar('Ậ') == 'ậ' && LowerChar('Ẩ') == 'ẩ' && LowerChar('Ẫ') == 'ẫ' && LowerChar('Ă') == 'ă'
    ensures LowerChar('Ắ') == 'ắ' && LowerChar('Ằ') == 'ằ' && LowerChar('Ặ') == 'ặ' && LowerChar('Ẳ') == 'ẳ'
    ensures LowerChar('Ẵ') == 'ẵ' && LowerChar('É') == 'é' && LowerChar('È') == 'è' && LowerChar('Ẹ') == 'ẹ'
    ensures LowerChar('Ẻ') == 'ẻ' && LowerChar('Ẽ') == 'ẽ' && LowerChar('Ê') == 'ê' && LowerChar('Ế') == 'ế'
    ensures LowerChar('Ề') == 'ề' && LowerChar('Ệ') == 'ệ' && LowerChar('Ể') == 'ể' && LowerChar('Ễ') == 'ễ'
    ensures LowerChar('Í') == 'í' && LowerChar('Ì') == 'ì' && LowerChar('Ị') == 'ị' && LowerChar('Ỉ') == 'ỉ'
    ensures LowerChar('Ĩ') == 'ĩ' && LowerChar('Ó') == 'ó' && LowerChar('Ò') == 'ò' && LowerChar('Ọ') == 'ọ'
    ensures LowerChar('Ỏ') == 'ỏ' && LowerChar('Õ') == 'õ' && LowerChar('Ô') == 'ô' && LowerChar('Ố') == 'ố'
    ensures LowerChar('Ồ') == 'ồ' && LowerChar('Ộ') == 'ộ' && LowerChar('Ổ') == 'ổ' && LowerChar('Ỗ') == 'ỗ'
    ensures LowerChar('Ơ') == 'ơ' && LowerChar('Ớ') == 'ớ' && LowerChar('Ờ') == 'ờ' && LowerChar('Ợ') == 'ợ'
    ensures LowerChar('Ở') == 'ở' && LowerChar('Ỡ') == 'ỡ' && LowerChar('Ú') == 'ú' && LowerChar('Ù') == 'ù'
    ensures LowerChar('Ụ') == 'ụ' && LowerChar('Ủ') == 'ủ' && LowerChar('Ũ') == 'ũ' && LowerChar('Ư') == 'ư'
    ensures LowerChar('Ứ') == 'ứ' && LowerChar('Ừ') == 'ừ' && LowerChar('Ự') == 'ự' && LowerChar('Ử') == 'ử'
    ensures LowerChar('Ữ') == 'ữ' && LowerChar('Ý') == 'ý' && LowerChar('Ỳ') == 'ỳ' && LowerChar('Ỵ') == 'ỵ'
    ensures LowerChar('Ỷ') == 'ỷ' && LowerChar('Ỹ') == 'ỹ' && LowerChar('Đ') == 'đ'
  {
    LowerCapitalsA();
    LowerCapitalsE();
    LowerCapitalsI();
    LowerCapitalsO();
    LowerCapitalsU();
    LowerCapitalsY();
  }

  lemma LowerCapitalsA()
    ensures LowerChar('Á') == 'á' && LowerChar('À') == 'à' && LowerChar('Ạ') == 'ạ' && LowerChar('Ả') == 'ả'
    ensures LowerChar('Ã') == 'ã' && LowerChar('Â') == 'â' && LowerChar('Ấ') == 'ấ' && LowerChar('Ầ') == 'ầ'
    ensures LowerChar('Ậ') == 'ậ' && LowerChar('Ẩ') == 'ẩ' && LowerChar('Ẫ') == 'ẫ' && LowerChar('Ă') == 'ă'
    ensures LowerChar('Ắ') == 'ắ' && LowerChar('Ằ') == 'ằ' && LowerChar('Ặ') == 'ặ' && LowerChar('Ẳ') == 'ẳ'
    ensures LowerChar('Ẵ') == 'ẵ'
  {
  }

  lemma LowerCapitalsE()
    ensures LowerChar('É') == 'é' && LowerChar('È') == 'è' && LowerChar('Ẹ') == 'ẹ' && LowerChar('Ẻ') == 'ẻ'
    ensures LowerChar('Ẽ') == 'ẽ' && LowerChar('Ê') == 'ê' && LowerChar('Ế') == 'ế' && LowerChar('Ề') == 'ề'
    ensures LowerChar('Ệ') == 'ệ' && LowerChar('Ể') == 'ể' && LowerChar('Ễ') == 'ễ'
  {
  }

  lemma LowerCapitalsI()
    ensures LowerChar('Í') == 'í' && LowerChar('Ì') == 'ì' && LowerChar('Ị') == 'ị' && LowerChar('Ỉ') == 'ỉ'
    ensures LowerChar('Ĩ') == 'ĩ'
  {
  }

  lemma LowerCapitalsO()
    ensures LowerChar('Ó') == 'ó' && LowerChar('Ò') == 'ò' && LowerChar('Ọ') == 'ọ' && LowerChar('Ỏ') == 'ỏ'
    ensures LowerChar('Õ') == 'õ' && LowerChar('Ô') == 'ô' && LowerChar('Ố') == 'ố' && LowerChar('Ồ') == 'ồ'
    ensures LowerChar('Ộ') == 'ộ' && LowerChar('Ổ') == 'ổ' && LowerChar('Ỗ') == 'ỗ' && LowerChar('Ơ') == 'ơ'
    ensures LowerChar('Ớ') == 'ớ' && LowerChar('Ờ') == 'ờ' && LowerChar('Ợ') == 'ợ' && LowerChar('Ở') == 'ở'
    ensures LowerChar('Ỡ') == 'ỡ'
  {
  }

  lemma LowerCapitalsU()
    ensures LowerChar('Ú') == 'ú' && LowerChar('Ù') == 'ù' && LowerChar('Ụ') == 'ụ' && LowerChar('Ủ') == 'ủ'
    ensures LowerChar('Ũ') == 'ũ' && LowerChar('Ư') == 'ư' && LowerChar('Ứ') == 'ứ' && LowerChar('Ừ') == 'ừ'
    ensures LowerChar('Ự') == 'ự' && LowerChar('Ử') == 'ử' && LowerChar('Ữ') == 'ữ'
  {
  }

  lemma LowerCapitalsY()
    ensures LowerChar('Ý') == 'ý' && LowerChar('Ỳ') == 'ỳ' && LowerChar('Ỵ') == 'ỵ' && LowerChar('Ỷ') == 'ỷ'
    ensures LowerChar('Ỹ') == 'ỹ' && LowerChar('Đ') == 'đ'
  {
  }

  function Lower(s: string): (r: string)
    ensures |r| == |s| && forall i :: 0 <= i < |s| ==> r[i] == LowerChar(s[i])
  {
    if s == [] then [] else [LowerChar(s[0])] + Lower(s[1..])
  }

  /** The 34 words of line 176. */
  const VietnameseWords: set<string> := {
    "là", "có", "được", "của", "và", "trái", "đất", "hình", "phẳng", "với", "trong", "này",
    "cho", "một", "không", "sẽ", "đã", "tại", "về", "từ", "như", "khi", "nếu", "vì", "để",
    "hoặc", "mà", "thì", "đó", "họ", "tôi", "bạn", "chúng", "những"
  }

  /** The only ones among them written without a Vietnamese letter. */
  const PlainVietnameseWords: set<string> := {"trong", "cho", "khi"}

  predicate HasVietnameseLetter(s: string) {
    exists i :: 0 <= i < |s| && IsVietnameseLetter(s[i])
  }

  /** How many of the words are in the given set (line 183). */
  function CountIn(ws: seq<string>, vocabulary: set<string>): (n: nat)
    ensures n <= |ws|
  {
    if ws == [] then 0
    else (if ws[0] in vocabulary then 1 else 0) + CountIn(ws[1..], vocabulary)
  }

  /** `_detect_language` (lines 172-191) on a text. `vietnamese_ratio > 0.2` is
      `5 * count > len(words)`; with no words the ratio is 0. */
  function DetectLanguage(text: string): Language {
    var t := Strip(Lower(text));
    var words := Words(t);
    if HasVietnameseLetter(t) || 5 * CountIn(words, VietnameseWords) > |words| then Vietnamese
    else English
  }

  lemma LetterSurvivesStrip(s: string)
    ensures HasVietnameseLetter(Strip(s)) <==> HasVietnameseLetter(s)
  {
    LettersAreVisible();
    StripKeepsVisibleProperty(s, IsVietnameseLetter);
  }

  /** No Vietnamese letter is whitespace. */
  lemma LettersAreVisible()
    ensures forall c :: IsVietnameseLetter(c) ==> !IsSpace(c)
  {
    forall c | IsVietnameseLetter(c) ensures !IsSpace(c) {
      LetterBlocks(c);
    }
  }

  /** Lower-casing turns exactly the letters and their capitals into letters. */
  lemma LetterAfterLower(text: string)
    ensures HasVietnameseLetter(Lower(text)) <==>
      exists i :: 0 <= i < |text| && (IsVietnameseLetter(text[i]) || IsVietnameseCapital(text[i]))
  {
    forall i | 0 <= i < |text|
      ensures IsVietnameseLetter(Lower(text)[i]) <==> IsVietnameseLetter(text[i]) || IsVietnameseCapital(text[i])
    {
      LowerCharLetters(text[i]);
    }
  }

  /** Every listed word outside trong, cho and khi holds a Vietnamese letter. */
  lemma ListedWordsHaveLetters(w: string)
    ensures w in VietnameseWords && w !in PlainVietnameseWords ==> HasVietnameseLetter(w)
  {
    if w in VietnameseWords && w !in PlainVietnameseWords {
      var i := if w in {"được", "đất", "đã", "để", "đó"} then 0
        else if w in {"là", "có", "của", "và", "hình", "với", "này", "một", "sẽ", "tại", "về", "từ", "nếu", "vì", "mà", "họ", "tôi", "bạn"} then 1
        else 2;
      assert IsVietnameseLetter(w[i]);
    }
  }

  /** Among words without a Vietnamese letter, only trong, cho and khi are counted. */
  lemma {:induction false} CountWithoutLetters(ws: seq<string>)
    requires forall j, k :: 0 <= j < |ws| && 0 <= k < |ws[j]| ==> !IsVietnameseLetter(ws[j][k])
    ensures CountIn(ws, VietnameseWords) == CountIn(ws, PlainVietnameseWords)
  {
    if ws != [] {
      ListedWordsHaveLetters(ws[0]);
      CountWithoutLetters(ws[1..]);
    }
  }

  /** The decision restated on the text as given: Vietnamese exactly when the text holds
      a Vietnamese letter in either case, or when more than a fifth of its words are,
      case-insensitively, trong, cho or khi. */
  lemma DetectionCriterion(text: string)
    ensures DetectLanguage(text) == Vietnamese <==>
      (exists i :: 0 <= i < |text| && (IsVietnameseLetter(text[i]) || IsVietnameseCapital(text[i])))
      || 5 * CountIn(Words(Lower(text)), PlainVietnameseWords) > |Words(Lower(text))|
  {
    var lowered := Lower(text);
    LetterSurvivesStrip(lowered);
    LetterAfterLower(text);
    WordsOfStrip(lowered);
    if !HasVietnameseLetter(lowered) {
      WordsInherit(lowered, IsVietnameseLetter);
      CountWithoutLetters(Words(lowered));
    }
  }

  /** Blank text (`not text.strip()` after lowering) is English. */
  lemma BlankIsEnglish(text: string)
    requires IsBlank(text)
    ensures DetectLanguage(text) == English
  {
    var lowered := Lower(text);
    assert IsBlank(lowered);
    StripEmptyIffBlank(lowered);
  }

  /** Lower-casing first changes nothing. */
  lemma DetectionIgnoresCase(text: string)
    ensures DetectLanguage(Lower(text)) == DetectLanguage(text)
  {
    assert Lower(Lower(text)) == Lower(text) by {
      forall i | 0 <= i < |text| ensures LowerChar(LowerChar(text[i])) == LowerChar(text[i]) {
        LowerCharIdempotent(text[i]);
      }
    }
  }

  lemma LowerCharIdempotent(c: char)
    ensures LowerChar(LowerChar(c)) == LowerChar(c)
  {
    var r := LowerChar(c);
    assert !InCapitalBlocks(r);
  }

  /** A capital with a Vietnamese diacritic anywhere decides the matter. */
  lemma CapitalExample(text: string)
    requires text == "Trái Đất phẳng"
    ensures DetectLanguage(text) == Vietnamese
  {
    assert IsVietnameseCapital(text[5]);
    DetectionCriterion(text);
  }
}
