/**
 * The key handler of the invisible input element that captures the physical
 * keyboard: a key code and the letters typed so far select at most one of the
 * game's callbacks.
 */
module GameKeyboardInput {
  import opened Wrappers

  /** Letters in a guess. */
  const LETTER_COUNT: nat := 5

  /** The callback a key press invokes, if any. */
  datatype Action =
    | ClickEnter                 // onClickEner()
    | ClickBack                  // onClickBack()
    | ClickKeyboard(letter: char) // onClickKeyboard(letter), letter a one-jamo string
    | NoAction

  /** The layout table: the physical key code of each letter key and the jamo it types. */
  const KEY_JAMO: map<string, char> := map[
    "KeyQ" := 'ㅂ', "KeyW" := 'ㅈ', "KeyE" := 'ㄷ', "KeyR" := 'ㄱ', "KeyT" := 'ㅅ',
    "KeyY" := 'ㅛ', "KeyU" := 'ㅕ', "KeyI" := 'ㅑ', "KeyO" := 'ㅐ', "KeyP" := 'ㅔ',
    "KeyA" := 'ㅁ', "KeyS" := 'ㄴ', "KeyD" := 'ㅇ', "KeyF" := 'ㄹ', "KeyG" := 'ㅎ',
    "KeyH" := 'ㅗ', "KeyJ" := 'ㅓ', "KeyK" := 'ㅏ', "KeyL" := 'ㅣ',
    "KeyZ" := 'ㅋ', "KeyX" := 'ㅌ', "KeyC" := 'ㅊ', "KeyV" := 'ㅍ', "KeyB" := 'ㅠ',
    "KeyN" := 'ㅜ', "KeyM" := 'ㅡ']

  /** `onKeyDown` */
  function OnKeyDown(code: string, curLetters: string): (a: Action)
    ensures a == ClickEnter <==> code == "Enter" && |curLetters| == LETTER_COUNT
    ensures a == ClickBack <==> code == "Backspace" && 0 < |curLetters|
    ensures a.ClickKeyboard? <==> code != "Enter" && code != "Backspace" && code in KEY_JAMO
    ensures a.ClickKeyboard? ==> code in KEY_JAMO && a.letter == KEY_JAMO[code]
  {
    if code == "Enter" then
      if |curLetters| == LETTER_COUNT then ClickEnter else NoAction
    else if code == "Backspace" then
      if 0 < |curLetters| then ClickBack else NoAction
    else
      match JamoFor(code)
      case Some(jamo) => ClickKeyboard(jamo)
      case None => NoAction
  }

  /** `code[e.code]`: the jamo a letter key types, None for any other code. */
  function JamoFor(code: string): (jamo: Option<char>)
    ensures jamo.Some? <==> code in KEY_JAMO
    ensures jamo.Some? ==> jamo.value in TABLE_CONSONANTS + TABLE_VOWELS
    ensures jamo.Some? ==> jamo.value !in SHIFTED_JAMO
    ensures jamo.Some? ==> KeyFor(jamo.value) == Some(code)
  {
    if code in KEY_JAMO then
      TableValues();
      NoShiftedJamo();
      TableRoundTrip();
      Some(KEY_JAMO[code])
    else None
  }

  /** The action depends on the letters typed only through their number. */
  lemma OnlyLengthMatters(code: string, letters1: string, letters2: string)
    requires |letters1| == |letters2|
    ensures OnKeyDown(code, letters1) == OnKeyDown(code, letters2)
  {
  }

  /** The keypad's Enter key is not the Enter key: it reaches the table and types nothing. */
  lemma NumpadEnterIgnored(curLetters: string)
    ensures OnKeyDown("NumpadEnter", curLetters) == NoAction
  {
  }

  /** A typed letter is one of the 14 consonants or 12 vowels of the table, never a shifted jamo. */
  lemma TypedLetterIsBasicJamo(code: string, curLetters: string)
    ensures OnKeyDown(code, curLetters).ClickKeyboard? ==>
      var c := OnKeyDown(code, curLetters).letter;
      c in TABLE_CONSONANTS + TABLE_VOWELS && c !in SHIFTED_JAMO &&
      (IsConsonant(c) <==> c in TABLE_CONSONANTS) && (IsVowel(c) <==> c in TABLE_VOWELS)
  {
    if OnKeyDown(code, curLetters).ClickKeyboard? {
      TableValues();
      NoShiftedJamo();
      ConsonantCount();
      VowelCount();
      ConsonantsNotVowels();
      var c := KEY_JAMO[code];
      assert c in KEY_JAMO.Values;
      assert IsConsonant(c) ==> !IsVowel(c);
    }
  }

  /** The key of the standard two-set Korean layout that types a jamo, if any. */
  function KeyFor(jamo: char): Option<string> {
    match jamo
    case 'ㅂ' => Some("KeyQ") case 'ㅈ' => Some("KeyW") case 'ㄷ' => Some("KeyE")
    case 'ㄱ' => Some("KeyR") case 'ㅅ' => Some("KeyT") case 'ㅛ' => Some("KeyY")
    case 'ㅕ' => Some("KeyU") case 'ㅑ' => Some("KeyI") case 'ㅐ' => Some("KeyO")
    case 'ㅔ' => Some("KeyP") case 'ㅁ' => Some("KeyA") case 'ㄴ' => Some("KeyS")
    case 'ㅇ' => Some("KeyD") case 'ㄹ' => Some("KeyF") case 'ㅎ' => Some("KeyG")
    case 'ㅗ' => Some("KeyH") case 'ㅓ' => Some("KeyJ") case 'ㅏ' => Some("KeyK")
    case 'ㅣ' => Some("KeyL") case 'ㅋ' => Some("KeyZ") case 'ㅌ' => Some("KeyX")
    case 'ㅊ' => Some("KeyC") case 'ㅍ' => Some("KeyV") case 'ㅠ' => Some("KeyB")
    case 'ㅜ' => Some("KeyN") case 'ㅡ' => Some("KeyM")
    case _ => None
  }

  lemma TableRoundTrip()
    ensures forall code :: code in KEY_JAMO ==> KeyFor(KEY_JAMO[code]) == Some(code)
  {
    forall code | code in KEY_JAMO ensures KeyFor(KEY_JAMO[code]) == Some(code) {
      KeyRoundTrip(code);
    }
  }

  lemma KeyRoundTrip(code: string)
    requires code in KEY_JAMO
    ensures KeyFor(KEY_JAMO[code]) == Some(code)
  {
  }

  lemma TableInjective()
    ensures forall c1, c2 :: c1 in KEY_JAMO && c2 in KEY_JAMO && c1 != c2 ==>
      KEY_JAMO[c1] != KEY_JAMO[c2]
  {
    TableRoundTrip();
  }

  /** A consonant of the Hangul Compatibility Jamo block (U+3131 to U+314E). */
  predicate IsConsonant(c: char) {
    'ㄱ' <= c <= 'ㅎ'
  }

  /** A vowel of the Hangul Compatibility Jamo block (U+314F to U+3163). */
  predicate IsVowel(c: char) {
    'ㅏ' <= c <= 'ㅣ'
  }

  const TABLE_CONSONANTS: set<char> :=
    {'ㅂ', 'ㅈ', 'ㄷ', 'ㄱ', 'ㅅ', 'ㅁ', 'ㄴ', 'ㅇ', 'ㄹ', 'ㅎ', 'ㅋ', 'ㅌ', 'ㅊ', 'ㅍ'}

  const TABLE_VOWELS: set<char> :=
    {'ㅛ', 'ㅕ', 'ㅑ', 'ㅐ', 'ㅔ', 'ㅗ', 'ㅓ', 'ㅏ', 'ㅣ', 'ㅠ', 'ㅜ', 'ㅡ'}

  /** The doubled consonants and the two vowels that need the shift key. */
  const SHIFTED_JAMO: set<char> := {'ㄲ', 'ㄸ', 'ㅃ', 'ㅆ', 'ㅉ', 'ㅒ', 'ㅖ'}

  /** Every jamo of the two sets is typed by the key `KeyFor` names. */
  lemma ReverseRoundTrip()
    ensures forall c :: c in TABLE_CONSONANTS + TABLE_VOWELS ==>
      KeyFor(c).Some? && KeyFor(c).value in KEY_JAMO && KEY_JAMO[KeyFor(c).value] == c
  {
    forall c | c in TABLE_CONSONANTS
      ensures KeyFor(c).Some? && KeyFor(c).value in KEY_JAMO && KEY_JAMO[KeyFor(c).value] == c
    {
      ConsonantKey(c);
    }
    forall c | c in TABLE_VOWELS
      ensures KeyFor(c).Some? && KeyFor(c).value in KEY_JAMO && KEY_JAMO[KeyFor(c).value] == c
    {
      VowelKey(c);
    }
  }

  lemma ConsonantKey(c: char)
    requires c in TABLE_CONSONANTS
    ensures KeyFor(c).Some? && KeyFor(c).value in KEY_JAMO && KEY_JAMO[KeyFor(c).value] == c
  {
  }

  lemma VowelKey(c: char)
    requires c in TABLE_VOWELS
    ensures KeyFor(c).Some? && KeyFor(c).value in KEY_JAMO && KEY_JAMO[KeyFor(c).value] == c
  {
  }

  lemma TableValues()
    ensures KEY_JAMO.Values == TABLE_CONSONANTS + TABLE_VOWELS
  {
    ReverseRoundTrip();
    assert forall code :: code in KEY_JAMO ==> KEY_JAMO[code] in TABLE_CONSONANTS + TABLE_VOWELS;
  }

  /** A map that sends distinct keys to distinct values has as many values as keys. */
  lemma {:induction false} InjectiveValues<K, V>(m: map<K, V>)
    requires forall k1, k2 :: k1 in m && k2 in m && k1 != k2 ==> m[k1] != m[k2]
    ensures |m.Values| == |m|
    decreases |m|
  {
    if m != map[] {
      var k :| k in m;
      var rest := m - {k};
      forall v | v in m.Values - {m[k]} ensures v in rest.Values {
        var k' :| k' in m && m[k'] == v;
        assert k' in rest && rest[k'] == v;
      }
      forall v | v in rest.Values ensures v in m.Values - {m[k]} {
        var k' :| k' in rest && rest[k'] == v;
        assert k' in m && k' != k;
      }
      assert rest.Values == m.Values - {m[k]};
      InjectiveValues(rest);
    }
  }

  lemma TableShape()
    ensures |KEY_JAMO| == 26
    ensures KEY_JAMO.Values == TABLE_CONSONANTS + TABLE_VOWELS
    ensures |TABLE_CONSONANTS| == 14 && |TABLE_VOWELS| == 12
    ensures forall c :: c in TABLE_CONSONANTS ==> IsConsonant(c)
    ensures forall c :: c in TABLE_VOWELS ==> IsVowel(c)
  {
    TableValues();
    TableInjective();
    InjectiveValues(KEY_JAMO);
    ConsonantCount();
    VowelCount();
    JamoCount();
  }

  lemma ConsonantCount()
    ensures |TABLE_CONSONANTS| == 14
    ensures forall c :: c in TABLE_CONSONANTS ==> IsConsonant(c)
  {
  }

  lemma VowelCount()
    ensures |TABLE_VOWELS| == 12
    ensures forall c :: c in TABLE_VOWELS ==> IsVowel(c)
  {
  }

  lemma JamoCount()
    ensures |TABLE_CONSONANTS + TABLE_VOWELS| == 26
  {
    ConsonantCount();
    VowelCount();
    ConsonantsNotVowels();
    DisjointUnionSize(TABLE_CONSONANTS, TABLE_VOWELS);
  }

  lemma ConsonantsNotVowels()
    ensures TABLE_CONSONANTS * TABLE_VOWELS == {}
  {
    forall c | c in TABLE_CONSONANTS ensures c !in TABLE_VOWELS {
      assert IsConsonant(c) && !IsVowel(c);
    }
  }

  lemma DisjointUnionSize<T>(a: set<T>, b: set<T>)
    requires a * b == {}
    ensures |a + b| == |a| + |b|
  {
  }

  /** No key of the table types a shifted jamo. */
  lemma NoShiftedJamo()
    ensures forall code :: code in KEY_JAMO ==> KEY_JAMO[code] !in SHIFTED_JAMO
  {
  }
}
