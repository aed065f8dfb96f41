/** Day 1: the calibration document. Every line yields the first and the last
    digit it mentions, literally ("7") or spelled out ("seven"); the two form a
    two-digit calibration number, and the numbers of all lines are summed. */
module Calibration {
  import opened Wrappers
  import opened Seqs
  import opened Decimal
  import opened Text

  datatype CalibrationDigit = CalibrationDigit(firstDigit: nat, secondDigit: nat)

  datatype CalibrationNumber = CalibrationNumber(value: nat)

  /** Where the Rust code panics: `digits[0]` on a line without a digit, and
      `unwrap` on the parse of the concatenated digits. */
  datatype CalibrationError = NoDigitInLine | NotANumber

  /** The spelled digits; `Words[k]` spells `k + 1`. */
  const Words: seq<string> := ["one", "two", "three", "four", "five", "six", "seven", "eight", "nine"]

  /** Where the chain of word checks starts. A named constant rather than a
      literal, so that the verifier does not unfold the nine checks wherever
      the chain is mentioned. */
  const FirstWordIndex: nat := 0

  // ---------------------------------------------------------------------------
  // The scan as the Rust code performs it
  // ---------------------------------------------------------------------------

  /** `line.split("")`: an empty piece, one piece per character, and another
      empty piece at the end. */
  function SplitEmpty(line: string): (pieces: seq<string>)
    ensures |pieces| == |line| + 2
    ensures pieces[0] == "" && pieces[|line| + 1] == ""
    ensures forall i | 1 <= i <= |line| :: pieces[i] == [line[i - 1]]
  {
    [""] + Characters(line) + [""]
  }

  /** One single-character piece per character of `line`. */
  function Characters(line: string): (pieces: seq<string>)
    ensures |pieces| == |line|
    ensures forall i {:trigger pieces[i]} | 0 <= i < |line| :: pieces[i] == [line[i]]
  {
    if line == [] then [] else Characters(line[..|line| - 1]) + [[Last(line)]]
  }

  /** The `if`/`else if` chain from its test of `Words[k]` on: the value of
      the first word, in the order "one" to "nine", that `processed` ends with. */
  function FirstWordFrom(processed: string, k: nat): Option<nat>
    requires k <= 9
    decreases 9 - k
  {
    if k == 9 then None
    else if EndsWith(processed, Words[k]) then Some(k + 1)
    else FirstWordFrom(processed, k + 1)
  }

  /** The whole `if`/`else if` chain. */
  function SpelledDigit(processed: string): Option<nat> {
    FirstWordFrom(processed, FirstWordIndex)
  }

  /** The chain yields a digit exactly when `processed` ends with one of the
      nine words, and then the value of a word it ends with. */
  lemma {:induction false} SpelledDigitFinds(processed: string)
    ensures SpelledDigit(processed).Some? <==> exists k | 0 <= k < 9 :: EndsWith(processed, Words[k])
    ensures SpelledDigit(processed).Some? ==>
              1 <= SpelledDigit(processed).value <= 9 && EndsWith(processed, Words[SpelledDigit(processed).value - 1])
  {
    FirstWordFromFinds(processed, FirstWordIndex);
  }

  /** The chain from `Words[k]` on finds a word exactly when one of the
      words from `Words[k]` on ends `processed`. */
  lemma {:induction false} FirstWordFromFinds(processed: string, k: nat)
    requires k <= 9
    ensures FirstWordFrom(processed, k).Some? <==> exists j | k <= j < 9 :: EndsWith(processed, Words[j])
    ensures FirstWordFrom(processed, k).Some? ==>
              k + 1 <= FirstWordFrom(processed, k).value <= 9 && EndsWith(processed, Words[FirstWordFrom(processed, k).value - 1])
    decreases 9 - k
  {
    if k < 9 && !EndsWith(processed, Words[k]) {
      FirstWordFromFinds(processed, k + 1);
    }
  }

  /** What the `match` on `piece.parse::<u64>()` pushes: the number, or nothing. */
  function LiteralPushed(piece: string): seq<nat> {
    match ParseU64(piece) case Ok(d) => [d] case Err(_) => []
  }

  /** What the `if`/`else if` chain pushes for the grown prefix. */
  function SpelledPushed(processed: string): seq<nat> {
    match SpelledDigit(processed) case Some(d) => [d] case None => []
  }

  /** `digits` after one turn of the loop: the piece itself is pushed when it
      parses as a `u64`, then the spelled digit the grown prefix `processed`
      ends with. */
  function Turn(digits: seq<nat>, processed: string, piece: string): seq<nat> {
    digits + LiteralPushed(piece) + SpelledPushed(processed)
  }

  /** `processed_characters` once the loop has handled `pieces`. */
  function Concat(pieces: seq<string>): string {
    if pieces == [] then "" else Concat(pieces[..|pieces| - 1]) + Last(pieces)
  }

  /** `digits` once the loop has handled `pieces`. */
  function PushedDigits(pieces: seq<string>): seq<nat> {
    if pieces == [] then []
    else Turn(PushedDigits(pieces[..|pieces| - 1]), Concat(pieces), Last(pieces))
  }


  /** `digits` at the end of `parse_calibration_digit`: the digits of the
      character-by-character reading, then the spelled digit the whole line
      ends with once more, found by the trailing empty piece of the split. */
  function LineDigits(line: string): (digits: seq<nat>)
    ensures digits == CharDigits(line) + SpelledPushed(line)
  {
    BoundaryPieces(line);
    PushedDigits(SplitEmpty(line))
  }

  /** The first and the last of `digits`, or the panic on `digits[0]` when
      there is none. */
  function FirstAndLast(digits: seq<nat>): Result<CalibrationDigit, CalibrationError> {
    if digits == [] then Err(NoDigitInLine) else Ok(CalibrationDigit(digits[0], Last(digits)))
  }

  /** `parse_calibration_digit`: walks the pieces of `line.split("")`, pushing
      literal digits and the spelled digits the growing prefix ends with, and
      returns the first and the last digit pushed. */
  method ParseCalibrationDigit(line: string) returns (r: Result<CalibrationDigit, CalibrationError>)
    ensures r == FirstAndLast(LineDigits(line))
    ensures r == FirstAndLast(CharDigits(line))
  {
    var characters := SplitEmpty(line);
    var digits: seq<nat> := [];
    var processedCharacters: string := "";
    for i := 0 to |characters|
      invariant processedCharacters == Concat(characters[..i])
      invariant digits == PushedDigits(characters[..i])
    {
      var character := characters[i];
      match ParseU64(character) {
        case Ok(digit) => digits := digits + [digit];
        case Err(_) =>
      }
      processedCharacters := processedCharacters + character;
      match SpelledDigit(processedCharacters) {
        case Some(digit) => digits := digits + [digit];
        case None =>
      }
      TakeOneMore(characters, i);
      ConcatStep(characters[..i], character);
      PushedDigitsStep(characters[..i], character);
    }
    assert characters[..|characters|] == characters;
    PushedOverLine(line, digits);
    if digits == [] {
      r := Err(NoDigitInLine);
    } else {
      r := Ok(CalibrationDigit(digits[0], digits[|digits| - 1]));
    }
  }

  /** The digits pushed over all pieces of the line have the first and the
      last digit of both readings. */
  lemma {:induction false} PushedOverLine(line: string, digits: seq<nat>)
    requires digits == PushedDigits(SplitEmpty(line))
    ensures FirstAndLast(digits) == FirstAndLast(LineDigits(line))
    ensures FirstAndLast(digits) == FirstAndLast(CharDigits(line))
  {
    BoundaryPiecesKeepFirstAndLast(line);
  }

  // ---------------------------------------------------------------------------
  // Reference definition: character by character, every check independent
  // ---------------------------------------------------------------------------

  /** The values of all words that `prefix` ends with, each checked on its
      own, from `Words[k]` on. */
  function EndingWords(prefix: string, k: nat): seq<nat>
    requires k <= 9
    decreases 9 - k
  {
    if k == 9 then []
    else (if EndsWith(prefix, Words[k]) then [k + 1] else []) + EndingWords(prefix, k + 1)
  }

  /** The digits the last character of `prefix` triggers: itself, if it is a
      digit, then every word that ends with it. */
  function Triggered(prefix: string): seq<nat>
    requires prefix != []
  {
    LiteralOf(Last(prefix)) + EndingWords(prefix, FirstWordIndex)
  }

  /** The digit a character stands for literally, if it is one. */
  function LiteralOf(c: char): seq<nat> {
    if IsDigit(c) then [DigitValue(c)] else []
  }

  /** The digits of `line` in discovery order: what each character triggers,
      character after character. */
  function CharDigits(line: string): seq<nat> {
    if line == [] then [] else CharDigits(line[..|line| - 1]) + Triggered(line)
  }

  predicate OccursAt(s: string, word: string, i: nat) {
    i + |word| <= |s| && s[i..i + |word|] == word
  }

  /** Some word "one" to "nine" occurs in `line`, overlapping others or not. */
  predicate ContainsWord(line: string) {
    exists k: nat, i: nat | k < 9 && i <= |line| :: OccursAt(line, Words[k], i)
  }

  // ---------------------------------------------------------------------------
  // Properties
  // ---------------------------------------------------------------------------

  /** The index in `Words` of the word whose last three letters are `a`, `b`
      and `c`, if there is one. */
  function WordIndexByEnding(a: char, b: char, c: char): Option<nat> {
    if [a, b, c] == "one" then Some(0)
    else if [a, b, c] == "two" then Some(1)
    else if [a, b, c] == "ree" then Some(2)
    else if [a, b, c] == "our" then Some(3)
    else if [a, b, c] == "ive" then Some(4)
    else if [a, b, c] == "six" then Some(5)
    else if [a, b, c] == "ven" then Some(6)
    else if [a, b, c] == "ght" then Some(7)
    else if [a, b, c] == "ine" then Some(8)
    else None
  }

  /** The last three letters of a word, in order. */
  function LastThree(w: string): (r: seq<char>)
    requires |w| >= 3
    ensures |r| == 3
  {
    [w[|w| - 3], w[|w| - 2], w[|w| - 1]]
  }

  /** The last three letters of a word identify it. */
  lemma {:induction false} EndingIdentifiesWord(k: nat)
    requires k < 9
    ensures |Words[k]| >= 3
    ensures var e := LastThree(Words[k]); WordIndexByEnding(e[0], e[1], e[2]) == Some(k)
  {
    if k == 0 {
      assert LastThree(Words[k]) == "one";
    } else if k == 1 {
      assert LastThree(Words[k]) == "two";
    } else if k == 2 {
      assert LastThree(Words[k]) == "ree";
    } else if k == 3 {
      assert LastThree(Words[k]) == "our";
    } else if k == 4 {
      assert LastThree(Words[k]) == "ive";
    } else if k == 5 {
      assert LastThree(Words[k]) == "six";
    } else if k == 6 {
      assert LastThree(Words[k]) == "ven";
    } else if k == 7 {
      assert LastThree(Words[k]) == "ght";
    } else {
      assert LastThree(Words[k]) == "ine";
    }
  }

  /** Text that ends with a word of three or more letters ends with that
      word's last three letters. */
  lemma {:induction false} EndsWithLastThree(prefix: string, w: string)
    requires |w| >= 3 && EndsWith(prefix, w)
    ensures |prefix| >= 3 && LastThree(prefix) == LastThree(w)
  {
    EndsWithSuffix(prefix, w);
    var n := |prefix|;
    var tail := prefix[n - |w|..];
    assert tail == w;
    assert prefix[n - 3] == tail[|w| - 3];
    assert prefix[n - 2] == tail[|w| - 2];
    assert prefix[n - 1] == tail[|w| - 1];
  }

  /** The last three letters tell the nine words apart, so no two of them
      end the same text. */
  lemma {:induction false} WordEndingsDiffer(prefix: string, k: nat, m: nat)
    requires k < 9 && m < 9
    requires EndsWith(prefix, Words[k]) && EndsWith(prefix, Words[m])
    ensures k == m
  {
    EndingIdentifiesWord(k);
    EndingIdentifiesWord(m);
    EndsWithLastThree(prefix, Words[k]);
    EndsWithLastThree(prefix, Words[m]);
  }

  /** Checked independently, the words from `Words[k]` on yield the one word
      that ends `prefix`, if any. */
  lemma {:induction false} EndingWordsUnique(prefix: string, k: nat)
    requires k <= 9
    ensures forall m | k <= m < 9 :: EndsWith(prefix, Words[m]) ==> EndingWords(prefix, k) == [m + 1]
    ensures (forall m | k <= m < 9 :: !EndsWith(prefix, Words[m])) ==> EndingWords(prefix, k) == []
    decreases 9 - k
  {
    if k < 9 {
      EndingWordsUnique(prefix, k + 1);
      if EndsWith(prefix, Words[k]) {
        forall m | k < m < 9
          ensures !EndsWith(prefix, Words[m])
        {
          if EndsWith(prefix, Words[m]) {
            WordEndingsDiffer(prefix, k, m);
          }
        }
      }
    }
  }

  lemma {:induction false} ChainFrom(prefix: string, k: nat)
    requires k <= 9
    ensures (match FirstWordFrom(prefix, k) case Some(d) => [d] case None => []) == EndingWords(prefix, k)
    decreases 9 - k
  {
    if k < 9 {
      if EndsWith(prefix, Words[k]) {
        EndingWordsUnique(prefix, k);
      } else {
        ChainFrom(prefix, k + 1);
      }
    }
  }

  /** The `else if` chain behaves like nine independent checks: at most one
      word ends any prefix, and the chain records exactly that one. */
  lemma {:induction false} ElseIfChainIsIndependent(prefix: string)
    ensures |EndingWords(prefix, FirstWordIndex)| <= 1
    ensures SpelledPushed(prefix) == EndingWords(prefix, FirstWordIndex)
  {
    ChainFrom(prefix, FirstWordIndex);
  }

  /** The empty piece in front of the characters pushes nothing. */
  lemma {:induction false} EmptyPiecePushesNothing(digits: seq<nat>)
    ensures Turn(digits, "", "") == digits
  {
  }

  /** A one-character piece parses as a `u64` exactly when it is a digit. */
  lemma {:induction false} ParseCharacter(c: char)
    ensures ParseU64([c]).Ok? <==> IsDigit(c)
    ensures IsDigit(c) ==> ParseU64([c]).value == DigitValue(c)
    ensures LiteralPushed([c]) == LiteralOf(c)
  {
    if IsDigit(c) {
      assert Unsigned([c]) == [c];
      assert [c][..0] == [];
    }
  }

  /** For a one-character piece, a turn of the loop pushes what the character
      triggers. */
  lemma {:induction false} PushedCharacter(digits: seq<nat>, processed: string)
    requires processed != []
    ensures Turn(digits, processed, [Last(processed)]) == digits + Triggered(processed)
  {
    var c := Last(processed);
    assert LiteralPushed([c]) == LiteralOf(c) by {
      ParseCharacter(c);
    }
    assert SpelledPushed(processed) == EndingWords(processed, FirstWordIndex) by {
      ElseIfChainIsIndependent(processed);
    }
    TurnPushes(digits, processed, [c], LiteralOf(c), EndingWords(processed, FirstWordIndex));
  }

  lemma {:induction false} TurnPushes(digits: seq<nat>, processed: string, piece: string, literal: seq<nat>, spelled: seq<nat>)
    requires LiteralPushed(piece) == literal && SpelledPushed(processed) == spelled
    ensures Turn(digits, processed, piece) == digits + (literal + spelled)
  {
  }

  lemma {:induction false} CharDigitsStep(line: string, j: nat)
    requires j < |line|
    ensures CharDigits(line[..j + 1]) == CharDigits(line[..j]) + Triggered(line[..j + 1])
  {
    var s := line[..j + 1];
    assert s[..|s| - 1] == line[..j];
    assert s[..j + 1] == line[..j + 1];
  }

  lemma {:induction false} ConcatStep(pieces: seq<string>, piece: string)
    ensures Concat(pieces + [piece]) == Concat(pieces) + piece
  {
    assert (pieces + [piece])[..|pieces|] == pieces;
  }

  lemma {:induction false} PushedDigitsStep(pieces: seq<string>, piece: string)
    ensures PushedDigits(pieces + [piece]) == Turn(PushedDigits(pieces), Concat(pieces) + piece, piece)
  {
    assert (pieces + [piece])[..|pieces|] == pieces;
    ConcatStep(pieces, piece);
  }

  lemma {:induction false} SplitEmptyPrefix(line: string, k: nat)
    requires 1 <= k <= |line|
    ensures SplitEmpty(line)[..k + 1] == SplitEmpty(line)[..k] + [[line[k - 1]]]
  {
  }

  /** The first `k + 1` pieces of `line.split("")` hold the first `k`
      characters, and the loop has pushed what those characters trigger. */
  lemma {:induction false} LeadingPieces(line: string, k: nat)
    requires k <= |line|
    ensures Concat(SplitEmpty(line)[..k + 1]) == line[..k]
    ensures PushedDigits(SplitEmpty(line)[..k + 1]) == CharDigits(line[..k])
  {
    if k == 0 {
      assert SplitEmpty(line)[..1] == [] + [""];
      ConcatStep([], "");
      PushedDigitsStep([], "");
      EmptyPiecePushesNothing([]);
    } else {
      LeadingPieces(line, k - 1);
      var init := SplitEmpty(line)[..k];
      var c := line[k - 1];
      SplitEmptyPrefix(line, k);
      ConcatStep(init, [c]);
      PushedDigitsStep(init, [c]);
      TakeOneMore(line, k - 1);
      PushedCharacter(CharDigits(line[..k - 1]), line[..k]);
      CharDigitsStep(line, k - 1);
    }
  }

  /** The empty piece in front pushes nothing; the one at the end re-runs the
      word check on the whole line. */
  lemma {:induction false} BoundaryPieces(line: string)
    ensures PushedDigits(SplitEmpty(line)) == CharDigits(line) + SpelledPushed(line)
  {
    var pieces := SplitEmpty(line);
    var init := pieces[..|line| + 1];
    LeadingPieces(line, |line|);
    assert pieces == init + [""];
    PushedDigitsStep(init, "");
    assert line[..|line|] == line;
    assert Concat(init) + "" == line;
  }

  /** A word ends only text at least as long as the word. */
  lemma {:induction false} EndingWordsNeedText(prefix: string, k: nat)
    requires k <= 9 && EndingWords(prefix, k) != []
    ensures |prefix| >= 3
    decreases 9 - k
  {
    if EndsWith(prefix, Words[k]) {
      EndsWithSuffix(prefix, Words[k]);
      assert |Words[k]| >= 3;
    } else {
      EndingWordsNeedText(prefix, k + 1);
    }
  }

  /** So the re-run at the end can only repeat the word the line ends with,
      which is already the last digit found. */
  lemma {:induction false} EndWordIsLastDigit(line: string)
    requires SpelledDigit(line).Some?
    ensures CharDigits(line) != [] && Last(CharDigits(line)) == SpelledDigit(line).value
  {
    var d := SpelledDigit(line).value;
    ElseIfChainIsIndependent(line);
    EndingWordsNeedText(line, FirstWordIndex);
    CharDigitsUnfold(line);
    LastOfAppend(CharDigits(line[..|line| - 1]), Triggered(line));
  }

  lemma {:induction false} TakeOneMore<T>(s: seq<T>, i: nat)
    requires i < |s|
    ensures s[..i + 1] == s[..i] + [s[i]]
  {
  }

  lemma {:induction false} LastOfAppend<T>(a: seq<T>, b: seq<T>)
    requires b != []
    ensures Last(a + b) == Last(b)
  {
  }

  lemma {:induction false} CharDigitsUnfold(line: string)
    requires line != []
    ensures CharDigits(line) == CharDigits(line[..|line| - 1]) + Triggered(line)
  {
  }

  /** Hence the boundary pieces change neither whether the line has a digit
      nor its first and last digit. */
  lemma {:induction false} BoundaryPiecesKeepFirstAndLast(line: string)
    ensures FirstAndLast(LineDigits(line)) == FirstAndLast(CharDigits(line))
  {
    BoundaryPieces(line);
    if SpelledDigit(line).Some? {
      EndWordIsLastDigit(line);
    }
  }

  lemma {:induction false} EndingWordsInRange(prefix: string, k: nat)
    requires k <= 9
    ensures forall i | 0 <= i < |EndingWords(prefix, k)| :: 1 <= EndingWords(prefix, k)[i] <= 9
    decreases 9 - k
  {
    if k < 9 {
      EndingWordsInRange(prefix, k + 1);
    }
  }

  /** Every digit the reference scan finds is between 0 and 9. */
  lemma {:induction false} CharDigitsInRange(line: string)
    ensures forall i | 0 <= i < |CharDigits(line)| :: CharDigits(line)[i] <= 9
  {
    if line != [] {
      var init := line[..|line| - 1];
      CharDigitsInRange(init);
      var last := Triggered(line);
      EndingWordsInRange(line, FirstWordIndex);
      assert forall i | 0 <= i < |last| :: last[i] <= 9;
      assert CharDigits(line) == CharDigits(init) + last;
    }
  }

  /** Every digit pushed into `digits` is between 0 and 9. */
  lemma {:induction false} DigitsInRange(line: string)
    ensures forall i | 0 <= i < |LineDigits(line)| :: LineDigits(line)[i] <= 9
  {
    CharDigitsInRange(line);
    BoundaryPieces(line);
    if SpelledDigit(line).Some? {
      EndWordIsLastDigit(line);
    }
  }

  // ---------------------------------------------------------------------------
  // Where words and digits are found
  // ---------------------------------------------------------------------------

  /** The word behind a non-empty `EndingWords`. */
  lemma {:induction false} EndingWordFound(prefix: string, k: nat) returns (m: nat)
    requires k <= 9 && EndingWords(prefix, k) != []
    ensures k <= m < 9 && EndsWith(prefix, Words[m])
    decreases 9 - k
  {
    if EndsWith(prefix, Words[k]) {
      m := k;
    } else {
      m := EndingWordFound(prefix, k + 1);
    }
  }

  /** A word ends the first `j` characters of a line exactly when it occurs
      in the line just before position `j`. */
  lemma {:induction false} EndsWithOccurs(line: string, j: nat, word: string)
    requires j <= |line|
    ensures EndsWith(line[..j], word) <==> |word| <= j && OccursAt(line, word, j - |word|)
  {
    EndsWithSuffix(line[..j], word);
    if |word| <= j {
      assert line[..j][j - |word|..] == line[j - |word|..j];
    }
  }

  /** A word that ends a prefix of the line occurs in the line. */
  lemma {:induction false} EndingWordOccurs(line: string, j: nat)
    requires j <= |line|
    ensures EndingWords(line[..j], FirstWordIndex) != [] ==> ContainsWord(line)
  {
    if EndingWords(line[..j], FirstWordIndex) != [] {
      var m := EndingWordFound(line[..j], FirstWordIndex);
      WordEndingHere(line, j, m);
    }
  }

  lemma {:induction false} WordEndingHere(line: string, j: nat, m: nat)
    requires j <= |line| && m < 9 && EndsWith(line[..j], Words[m])
    ensures ContainsWord(line)
  {
    EndsWithOccurs(line, j, Words[m]);
    assert OccursAt(line, Words[m], j - |Words[m]|);
  }

  /** The letters the nine words end with. */
  const WordLastLetters: set<char> := {'e', 'o', 'r', 'x', 'n', 't'}

  /** No word ends in a digit. */
  lemma {:induction false} WordEndsInLetter(k: nat)
    requires k < 9
    ensures Last(Words[k]) in WordLastLetters && !IsDigit(Last(Words[k]))
  {
  }

  /** Only text of three or more letters, ending in one of the words' last
      letters, can end with a word. */
  lemma {:induction false} EndingWordShape(prefix: string)
    ensures EndingWords(prefix, FirstWordIndex) != [] ==> |prefix| >= 3 && Last(prefix) in WordLastLetters
  {
    if EndingWords(prefix, FirstWordIndex) != [] {
      EndingWordsNeedText(prefix, FirstWordIndex);
      var m := EndingWordFound(prefix, FirstWordIndex);
      EndsWithWord(prefix, m);
    }
  }

  lemma {:induction false} EndsWithWord(prefix: string, m: nat)
    requires m < 9 && EndsWith(prefix, Words[m])
    ensures prefix != [] && Last(prefix) in WordLastLetters
  {
    WordEndsInLetter(m);
    assert Words[m] != [];
  }

  /** A spelled word is recorded at the character that completes it, and
      nothing else is recorded there: the check runs on the whole prefix read
      so far, so words that share letters with earlier ones are still found. */
  lemma {:induction false} WordRecordedWhereItEnds(line: string, j: nat, k: nat)
    requires j < |line| && k < 9
    requires EndsWith(line[..j + 1], Words[k])
    ensures Triggered(line[..j + 1]) == [k + 1]
    ensures CharDigits(line[..j + 1]) == CharDigits(line[..j]) + [k + 1]
  {
    var prefix := line[..j + 1];
    assert EndingWords(prefix, FirstWordIndex) == [k + 1] by {
      EndingWordsUnique(prefix, FirstWordIndex);
    }
    assert LiteralOf(Last(prefix)) == [] by {
      EndsWithWord(prefix, k);
    }
    assert CharDigits(prefix) == CharDigits(line[..j]) + Triggered(prefix) by {
      CharDigitsStep(line, j);
    }
  }

  /** The digits found in `line[..n]` are the first ones found in `line`. */
  lemma {:induction false} CharDigitsGrow(line: string, n: nat)
    requires n <= |line|
    ensures CharDigits(line[..n]) <= CharDigits(line)
    decreases |line| - n
  {
    if n == |line| {
      assert line[..n] == line;
    } else {
      CharDigitsGrow(line, n + 1);
      CharDigitsStep(line, n);
      PrefixTransitive(CharDigits(line[..n]), CharDigits(line[..n + 1]), CharDigits(line));
    }
  }

  lemma {:induction false} PrefixTransitive<T>(a: seq<T>, b: seq<T>, c: seq<T>)
    requires a <= b && b <= c
    ensures a <= c
  {
    assert b[..|a|] == a;
    assert c[..|b|] == b;
    assert c[..|a|] == c[..|b|][..|a|];
  }

  /** With neither digit characters nor words, nothing is found. */
  lemma {:induction false} NothingFound(line: string, n: nat)
    requires n <= |line|
    requires forall i | 0 <= i < |line| :: !IsDigit(line[i])
    requires !ContainsWord(line)
    ensures CharDigits(line[..n]) == []
  {
    if n > 0 {
      NothingFound(line, n - 1);
      EndingWordOccurs(line, n);
      CharDigitsStep(line, n - 1);
    }
  }

  /** A digit character is found where it stands. */
  lemma {:induction false} LiteralFound(line: string, i: nat)
    requires i < |line| && IsDigit(line[i])
    ensures CharDigits(line) != []
  {
    var prefix := line[..i + 1];
    LiteralInPrefix(line, i);
    PrefixFound(line, prefix);
  }

  lemma {:induction false} PrefixFound(line: string, prefix: string)
    requires prefix <= line && CharDigits(prefix) != []
    ensures CharDigits(line) != []
  {
    assert line[..|prefix|] == prefix;
    FoundInPrefix(line, |prefix|);
  }

  lemma {:induction false} LiteralInPrefix(line: string, i: nat)
    requires i < |line| && IsDigit(line[i])
    ensures CharDigits(line[..i + 1]) != []
  {
    var prefix := line[..i + 1];
    assert Last(prefix) == line[i];
    TriggeredLiteral(prefix);
    CharDigitsStep(line, i);
  }

  lemma {:induction false} TriggeredLiteral(prefix: string)
    requires prefix != [] && IsDigit(Last(prefix))
    ensures Triggered(prefix) != [] && Triggered(prefix)[0] == DigitValue(Last(prefix))
  {
  }

  /** A word is found where it ends. */
  lemma {:induction false} WordFound(line: string, k: nat, i: nat)
    requires k < 9 && OccursAt(line, Words[k], i)
    ensures CharDigits(line) != []
  {
    var j := i + |Words[k]|;
    EndsWithOccurs(line, j, Words[k]);
    WordEndsPrefix(line, j, k);
    FoundInPrefix(line, j);
  }

  lemma {:induction false} WordEndsPrefix(line: string, j: nat, k: nat)
    requires 0 < j <= |line| && k < 9
    requires EndsWith(line[..j], Words[k])
    ensures CharDigits(line[..j]) != []
  {
    var j' := j - 1;
    assert j' + 1 == j;
    WordRecordedWhereItEnds(line, j', k);
  }

  /** What a prefix of the line yields, the whole line yields too. */
  lemma {:induction false} FoundInPrefix(line: string, n: nat)
    requires n <= |line| && CharDigits(line[..n]) != []
    ensures CharDigits(line) != []
  {
    CharDigitsGrow(line, n);
  }

  /** `digits[0]` fails exactly on the lines with neither a digit character
      nor a spelled word. */
  lemma {:induction false} NoDigitExactly(line: string)
    ensures CharDigits(line) == [] <==> (forall i | 0 <= i < |line| :: !IsDigit(line[i])) && !ContainsWord(line)
  {
    if (forall i | 0 <= i < |line| :: !IsDigit(line[i])) && !ContainsWord(line) {
      NothingFound(line, |line|);
      assert line[..|line|] == line;
    } else if exists i | 0 <= i < |line| :: IsDigit(line[i]) {
      var i :| 0 <= i < |line| && IsDigit(line[i]);
      LiteralFound(line, i);
    } else {
      var k: nat, i: nat :| k < 9 && i <= |line| && OccursAt(line, Words[k], i);
      WordFound(line, k, i);
    }
  }

  /** A character that is not a digit and completes no word adds nothing. */
  lemma {:induction false} QuietCharacter(line: string, j: nat)
    requires j < |line| && !IsDigit(line[j])
    requires j < 2 || line[j] !in WordLastLetters
    ensures CharDigits(line[..j + 1]) == CharDigits(line[..j])
  {
    var prefix := line[..j + 1];
    assert Last(prefix) == line[j];
    EndingWordShape(prefix);
    CharDigitsStep(line, j);
  }

  /** The values of the digit characters of `line`, in order. */
  function DigitValues(line: string): seq<nat> {
    if line == [] then []
    else DigitValues(line[..|line| - 1]) + LiteralOf(Last(line))
  }

  lemma {:induction false} DigitValuesAppend(a: string, b: string)
    ensures DigitValues(a + b) == DigitValues(a) + DigitValues(b)
  {
    if b != [] {
      var b' := b[..|b| - 1];
      DigitValuesAppend(a, b');
      var ab := a + b;
      assert ab[..|ab| - 1] == a + b';
      assert Last(ab) == Last(b);
      var tail := LiteralOf(Last(b));
      assert DigitValues(ab) == DigitValues(a + b') + tail;
      assert DigitValues(b) == DigitValues(b') + tail;
    } else {
      assert a + b == a;
    }
  }

  lemma {:induction false} NoDigitCharacters(s: string)
    requires forall i | 0 <= i < |s| :: !IsDigit(s[i])
    ensures DigitValues(s) == []
  {
    if s != [] {
      NoDigitCharacters(s[..|s| - 1]);
    }
  }

  lemma {:induction false} DigitValuesEnds(s: string)
    requires s != [] && IsDigit(s[0]) && IsDigit(Last(s))
    ensures DigitValues(s) != []
    ensures DigitValues(s)[0] == DigitValue(s[0]) && Last(DigitValues(s)) == DigitValue(Last(s))
  {
    DigitValuesAppend([s[0]], s[1..]);
    assert [s[0]] + s[1..] == s;
    assert [s[0]][..0] == [];
  }

  /** Without spelled words, the digits found are the digit characters. */
  lemma {:induction false} LiteralsOnly(line: string, n: nat)
    requires n <= |line| && !ContainsWord(line)
    ensures CharDigits(line[..n]) == DigitValues(line[..n])
  {
    if n > 0 {
      LiteralsOnly(line, n - 1);
      LiteralsOnlyStep(line, n);
    }
  }

  lemma {:induction false} LiteralsOnlyStep(line: string, n: nat)
    requires 0 < n <= |line| && !ContainsWord(line)
    requires CharDigits(line[..n - 1]) == DigitValues(line[..n - 1])
    ensures CharDigits(line[..n]) == DigitValues(line[..n])
  {
    EndingWordOccurs(line, n);
    QuietStep(line, n - 1);
    DigitValuesStep(line, n - 1);
  }

  /** A character that completes no word adds only its literal digit, if any. */
  lemma {:induction false} QuietStep(line: string, j: nat)
    requires j < |line| && EndingWords(line[..j + 1], FirstWordIndex) == []
    ensures CharDigits(line[..j + 1]) == CharDigits(line[..j]) + LiteralOf(line[j])
  {
    CharDigitsStep(line, j);
    assert Last(line[..j + 1]) == line[j];
  }

  lemma {:induction false} DigitValuesStep(line: string, j: nat)
    requires j < |line|
    ensures DigitValues(line[..j + 1]) == DigitValues(line[..j]) + LiteralOf(line[j])
  {
    var prefix := line[..j + 1];
    assert prefix[..|prefix| - 1] == line[..j];
  }

  /** For a line without spelled words, the calibration digit is made of its
      first and its last digit character; with a single digit character, both
      are that digit. */
  lemma {:induction false} FirstAndLastLiteral(line: string, i: nat, j: nat)
    requires !ContainsWord(line)
    requires i <= j < |line| && IsDigit(line[i]) && IsDigit(line[j])
    requires forall p | 0 <= p < i :: !IsDigit(line[p])
    requires forall p | j < p < |line| :: !IsDigit(line[p])
    ensures FirstAndLast(CharDigits(line)) == Ok(CalibrationDigit(DigitValue(line[i]), DigitValue(line[j])))
  {
    LiteralsOnly(line, |line|);
    assert line[..|line|] == line;
    DigitValuesBetween(line, i, j);
  }

  lemma {:induction false} DigitValuesBetween(line: string, i: nat, j: nat)
    requires i <= j < |line| && IsDigit(line[i]) && IsDigit(line[j])
    requires forall p | 0 <= p < i :: !IsDigit(line[p])
    requires forall p | j < p < |line| :: !IsDigit(line[p])
    ensures FirstAndLast(DigitValues(line)) == Ok(CalibrationDigit(DigitValue(line[i]), DigitValue(line[j])))
  {
    var middle := line[i..j + 1];
    DigitValuesOnlyMiddle(line, i, j);
    DigitValuesEnds(middle);
  }

  lemma {:induction false} DigitValuesOnlyMiddle(line: string, i: nat, j: nat)
    requires i <= j < |line|
    requires forall p | 0 <= p < i :: !IsDigit(line[p])
    requires forall p | j < p < |line| :: !IsDigit(line[p])
    ensures DigitValues(line) == DigitValues(line[i..j + 1])
  {
    var before, middle, after := line[..i], line[i..j + 1], line[j + 1..];
    CutInThree(line, i, j + 1);
    assert forall p | 0 <= p < |before| :: before[p] == line[p];
    assert forall p | 0 <= p < |after| :: after[p] == line[j + 1 + p];
    NoDigitsAround(before, middle, after);
  }

  lemma {:induction false} CutInThree<T>(s: seq<T>, i: nat, j: nat)
    requires i <= j <= |s|
    ensures s == s[..i] + s[i..j] + s[j..]
  {
  }

  lemma {:induction false} NoDigitsAround(before: string, middle: string, after: string)
    requires forall p | 0 <= p < |before| :: !IsDigit(before[p])
    requires forall p | 0 <= p < |after| :: !IsDigit(after[p])
    ensures DigitValues(before + middle + after) == DigitValues(middle)
  {
    DigitValuesAppend(before + middle, after);
    DigitValuesAppend(before, middle);
    NoDigitCharacters(before);
    NoDigitCharacters(after);
  }

  // ---------------------------------------------------------------------------
  // Calibration numbers and their sum
  // ---------------------------------------------------------------------------

  /** `create_calibration_number`: the decimal texts of the two digits are
      concatenated and parsed back as a `u64`; the `unwrap` fails when the
      concatenation does not fit. */
  function CreateCalibrationNumber(digit: CalibrationDigit): (r: Result<CalibrationNumber, CalibrationError>)
    ensures r.Err? ==> r.error == NotANumber
    ensures digit.firstDigit <= 9 && digit.secondDigit <= 9 ==>
              r == Ok(CalibrationNumber(10 * digit.firstDigit + digit.secondDigit))
  {
    ParseJoinedDigits(digit.firstDigit, digit.secondDigit);
    match ParseU64(ToDecimal(digit.firstDigit) + ToDecimal(digit.secondDigit))
    case Ok(value) => Ok(CalibrationNumber(value))
    case Err(_) => Err(NotANumber)
  }

  /** For any two numbers the result is the number their decimal texts spell
      when written one after the other, an error when that exceeds a `u64`. */
  lemma {:induction false} CreateCalibrationNumberJoins(digit: CalibrationDigit)
    ensures var joined := digit.firstDigit * Pow10(|ToDecimal(digit.secondDigit)|) + digit.secondDigit;
            var r := CreateCalibrationNumber(digit);
            (r.Ok? <==> joined <= U64_MAX) && (r.Ok? ==> r.value.value == joined)
  {
    ParseJoinedDigits(digit.firstDigit, digit.secondDigit);
  }

  lemma {:induction false} ParseJoinedDigits(a: nat, b: nat)
    ensures var joined := a * Pow10(|ToDecimal(b)|) + b;
            var r := ParseU64(ToDecimal(a) + ToDecimal(b));
            (r.Ok? <==> joined <= U64_MAX) && (r.Ok? ==> r.value == joined)
  {
    var first, second := ToDecimal(a), ToDecimal(b);
    var concatDigits := first + second;
    ValueAppend(first, second);
    assert Unsigned(concatDigits) == concatDigits by {
      assert concatDigits[0] == first[0];
    }
  }

  function NumberValue(number: CalibrationNumber): nat {
    number.value
  }

  /** The fold of `process_input` over the lines' numbers: added up from 0,
      left to right. The unused helper `sum_calibration_digits` is the same
      fold. */
  function SumCalibrationDigits(numbers: seq<CalibrationNumber>): (r: CalibrationNumber)
    ensures r.value == SumBy(numbers, NumberValue)
    ensures numbers == [] ==> r.value == 0
    ensures forall i | 0 <= i < |numbers| :: numbers[i].value <= r.value
    ensures (forall i | 0 <= i < |numbers| :: numbers[i].value <= 99) ==> r.value <= 99 * |numbers|
  {
    SumByBound(numbers, NumberValue, 99);
    SumByAtLeast(numbers, NumberValue);
    CalibrationNumber(SumBy(numbers, NumberValue))
  }

  /** The calibration value the puzzle asks for on one line: ten times its
      first digit plus its last, by the character-by-character reading; 0 for
      a line without digits. */
  function LineValue(line: string): nat {
    var digits := CharDigits(line);
    if digits == [] then 0 else 10 * digits[0] + Last(digits)
  }

  /** What one line contributes in `process_input`: `parse_calibration_digit`
      followed by `create_calibration_number`. */
  function LineNumber(line: string): (r: Result<CalibrationNumber, CalibrationError>)
    ensures r.Ok? <==> CharDigits(line) != []
    ensures r.Err? ==> r.error == NoDigitInLine
    ensures r.Ok? ==> r.value.value == LineValue(line) && r.value.value <= 99
  {
    LineNumberMeaning(line);
    NumberOf(FirstAndLast(LineDigits(line)))
  }

  /** `r` is what the number of a line whose digits are `digits` must be: a
      number exactly when there is a digit, the panic otherwise, and the
      number made of the first and the last digit, at most 99. */
  predicate IsNumberOf(digits: seq<nat>, r: Result<CalibrationNumber, CalibrationError>) {
    && (r.Ok? <==> digits != [])
    && (r.Err? ==> r.error == NoDigitInLine)
    && (r.Ok? ==> r.value.value == 10 * digits[0] + Last(digits) && r.value.value <= 99)
  }

  /** `create_calibration_number` applied to what `parse_calibration_digit`
      returned, the panic passed on. */
  function NumberOf(scanned: Result<CalibrationDigit, CalibrationError>): Result<CalibrationNumber, CalibrationError> {
    match scanned
    case Err(e) => Err(e)
    case Ok(digit) => CreateCalibrationNumber(digit)
  }

  lemma {:induction false} LineNumberMeaning(line: string)
    ensures IsNumberOf(CharDigits(line), NumberOf(FirstAndLast(LineDigits(line))))
  {
    BoundaryPiecesKeepFirstAndLast(line);
    NumberOfCharDigits(line, FirstAndLast(LineDigits(line)));
  }

  /** The same for the first and last digit of the character-by-character
      reading. */
  lemma {:induction false} NumberOfCharDigits(line: string, scanned: Result<CalibrationDigit, CalibrationError>)
    requires scanned == FirstAndLast(CharDigits(line))
    ensures IsNumberOf(CharDigits(line), NumberOf(scanned))
  {
    CharDigitsInRange(line);
    NumberOfDigits(CharDigits(line));
  }

  /** Creating the number of the first and last of a list of digits. */
  lemma {:induction false} NumberOfDigits(digits: seq<nat>)
    requires forall i | 0 <= i < |digits| :: digits[i] <= 9
    ensures IsNumberOf(digits, NumberOf(FirstAndLast(digits)))
  {
    if digits != [] {
      assert digits[0] <= 9 && digits[|digits| - 1] <= 9;
    }
  }

  /** `process_input` over the lines of the document: every line becomes a
      calibration number, and the numbers are summed from 0. The first line
      without a digit stops it. */
  function ProcessInput(lines: seq<string>): (r: Result<CalibrationNumber, CalibrationError>)
    ensures r.Ok? <==> forall i | 0 <= i < |lines| :: CharDigits(lines[i]) != []
    ensures r.Err? ==> r.error == NoDigitInLine
    ensures r.Ok? ==> r.value.value == SumBy(lines, LineValue) && r.value.value <= 99 * |lines|
    ensures lines == [] ==> r == Ok(CalibrationNumber(0))
  {
    match TryMap(lines, LineNumber)
    case Err(e) => Err(e)
    case Ok(numbers) =>
      SumByPointwise(numbers, NumberValue, lines, LineValue);
      Ok(SumCalibrationDigits(numbers))
  }

  /** The total does not depend on the order of the lines. */
  lemma {:induction false} ProcessInputOrderIndependent(a: seq<string>, b: seq<string>)
    requires multiset(a) == multiset(b)
    ensures ProcessInput(a) == ProcessInput(b)
  {
    assert forall i | 0 <= i < |a| :: a[i] in multiset(b);
    assert forall i | 0 <= i < |b| :: b[i] in multiset(a);
    SumByPermutation(a, b, LineValue);
  }

  /** Documents put one after the other sum to the sum of their totals. */
  lemma {:induction false} ProcessInputAppend(a: seq<string>, b: seq<string>)
    requires ProcessInput(a).Ok? && ProcessInput(b).Ok?
    ensures ProcessInput(a + b).Ok?
    ensures ProcessInput(a + b).value.value == ProcessInput(a).value.value + ProcessInput(b).value.value
  {
    assert forall i | 0 <= i < |a + b| :: (a + b)[i] == if i < |a| then a[i] else b[i - |a|];
    SumByAppend(a, b, LineValue);
  }

  // ---------------------------------------------------------------------------
  // The unit tests' lines
  // ---------------------------------------------------------------------------

  /** The first two letters of the nine words. */
  const WordOpenings: set<string> := {"on", "tw", "th", "fo", "fi", "si", "se", "ei", "ni"}

  lemma {:induction false} WordOpening(k: nat)
    requires k < 9
    ensures |Words[k]| >= 3 && Words[k][..2] in WordOpenings
  {
    if k == 0 {
      assert Words[k][..2] == "on";
    } else if k == 1 {
      assert Words[k][..2] == "tw";
    } else if k == 2 {
      assert Words[k][..2] == "th";
    } else if k == 3 {
      assert Words[k][..2] == "fo";
    } else if k == 4 {
      assert Words[k][..2] == "fi";
    } else if k == 5 {
      assert Words[k][..2] == "si";
    } else if k == 6 {
      assert Words[k][..2] == "se";
    } else if k == 7 {
      assert Words[k][..2] == "ei";
    } else {
      assert Words[k][..2] == "ni";
    }
  }

  lemma {:induction false} WordOpensAt(line: string, k: nat, i: nat)
    requires k < 9
    ensures OccursAt(line, Words[k], i) ==> i + 1 < |line| && [line[i], line[i + 1]] in WordOpenings
  {
    WordOpening(k);
    if OccursAt(line, Words[k], i) {
      assert [line[i], line[i + 1]] == line[i..i + |Words[k]|][..2];
    }
  }

  /** A line in which no two neighbouring characters open a word contains no word. */
  lemma {:induction false} NoWordWithoutOpening(line: string)
    requires forall i | 0 <= i < |line| - 1 :: [line[i], line[i + 1]] !in WordOpenings
    ensures !ContainsWord(line)
  {
    forall k: nat, i: nat | k < 9 && i <= |line|
      ensures !OccursAt(line, Words[k], i)
    {
      WordOpensAt(line, k, i);
    }
  }

  /** "1abc2" gives (1, 2). */
  lemma {:induction false} ExampleTwoDigits()
    ensures FirstAndLast(CharDigits("1abc2")) == Ok(CalibrationDigit(1, 2))
  {
    NoWordWithoutOpening("1abc2");
    FirstAndLastLiteral("1abc2", 0, 4);
  }

  /** "a7bc" gives (7, 7): a single digit is both the first and the last. */
  lemma {:induction false} ExampleOneDigit()
    ensures FirstAndLast(CharDigits("a7bc")) == Ok(CalibrationDigit(7, 7))
  {
    NoWordWithoutOpening("a7bc");
    FirstAndLastLiteral("a7bc", 1, 1);
  }

  /** "a1b2c3d4e5f" gives (1, 5). */
  lemma {:induction false} ExampleManyDigits()
    ensures FirstAndLast(CharDigits("a1b2c3d4e5f")) == Ok(CalibrationDigit(1, 5))
  {
    NoWordWithoutOpening("a1b2c3d4e5f");
    FirstAndLastLiteral("a1b2c3d4e5f", 1, 9);
  }

  /** "one" gives (1, 1): the word is found at its last letter, and the empty
      piece at the end of the split finds it once more. */
  lemma {:induction false} ExampleSpelledOne()
    ensures CharDigits("one") == [1]
    ensures LineDigits("one") == [1, 1]
    ensures FirstAndLast(LineDigits("one")) == Ok(CalibrationDigit(1, 1))
  {
    SpelledOneAlone("one");
  }

  lemma {:induction false} SpelledOneAlone(line: string)
    requires |line| == 3 && line[0] == 'o' && line[1] == 'n' && line[2] == 'e'
    ensures CharDigits(line) == [1] && LineDigits(line) == [1, 1]
  {
    assert line[..3] == line;
    assert CharDigits(line) == [1] by {
      OneOpensLine(line);
    }
    assert SpelledPushed(line) == [1] by {
      OneEndsThree(line);
      SpelledWordAtEnd(line, 0);
    }
    BoundaryPieces(line);
  }

  /** "oneight": the two words share the letter e, and both are found; the
      empty piece at the end of the split finds the second once more. */
  lemma {:induction false} ExampleOverlappingWords()
    ensures CharDigits("oneight") == [1, 8]
    ensures LineDigits("oneight") == [1, 8, 8]
  {
    OneightLine("oneight");
  }

  lemma {:induction false} OneightLine(line: string)
    requires |line| == 7 && line[0] == 'o' && line[1] == 'n' && line[2] == 'e'
    requires line[3] == 'i' && line[4] == 'g' && line[5] == 'h' && line[6] == 't'
    ensures CharDigits(line) == [1, 8] && LineDigits(line) == [1, 8, 8]
  {
    OneightFinds(line);
    EightEndsLine(line);
    SpelledWordAtEnd(line, 7);
    BoundaryPieces(line);
  }

  /** Read character by character, "oneight" holds a 1 and an 8. */
  lemma {:induction false} OneightFinds(line: string)
    requires |line| == 7 && line[0] == 'o' && line[1] == 'n' && line[2] == 'e'
    requires line[3] == 'i' && line[4] == 'g' && line[5] == 'h' && line[6] == 't'
    ensures CharDigits(line) == [1, 8]
  {
    assert line[..7] == line;
    OneighFindsOne(line);
    EightEndsLine(line);
    WordRecordedWhereItEnds(line, 6, 7);
  }

  lemma {:induction false} OneighFindsOne(line: string)
    requires |line| >= 6 && line[0] == 'o' && line[1] == 'n' && line[2] == 'e'
    requires line[3] == 'i' && line[4] == 'g' && line[5] == 'h'
    ensures CharDigits(line[..6]) == [1]
  {
    assert forall j | 3 <= j < 6 :: !IsDigit(line[j]) && line[j] !in WordLastLetters;
    OneThenQuiet(line, 6);
  }

  lemma {:induction false} EightEndsLine(line: string)
    requires |line| == 7 && line[2] == 'e' && line[3] == 'i' && line[4] == 'g' && line[5] == 'h' && line[6] == 't'
    ensures EndsWith(line, Words[7])
  {
    EndsWithSuffix(line, Words[7]);
    assert line[2..] == Words[7];
  }

  /** A prefix that ends with a word has the `else if` chain push that word's digit. */
  lemma {:induction false} SpelledWordAtEnd(prefix: string, k: nat)
    requires k < 9 && EndsWith(prefix, Words[k])
    ensures SpelledDigit(prefix) == Some(k + 1) && SpelledPushed(prefix) == [k + 1]
  {
    EndingWordsUnique(prefix, FirstWordIndex);
    ElseIfChainIsIndependent(prefix);
  }

  /** "one" followed by letters that neither are digits nor end a word. */
  lemma {:induction false} OneThenQuiet(line: string, n: nat)
    requires 3 <= n <= |line| && line[0] == 'o' && line[1] == 'n' && line[2] == 'e'
    requires forall j | 3 <= j < n :: !IsDigit(line[j]) && line[j] !in WordLastLetters
    ensures CharDigits(line[..n]) == [1]
  {
    OneOpensLine(line);
    QuietRun(line, 3, n);
  }

  /** A line that starts with "one" has found exactly the 1 after three letters. */
  lemma {:induction false} OneOpensLine(line: string)
    requires |line| >= 3 && line[0] == 'o' && line[1] == 'n' && line[2] == 'e'
    ensures CharDigits(line[..3]) == [1]
  {
    OnFindsNothing(line);
    OneEndsThree(line);
    WordRecordedWhereItEnds(line, 2, 0);
  }

  lemma {:induction false} OnFindsNothing(line: string)
    requires |line| >= 2 && line[0] == 'o' && line[1] == 'n'
    ensures CharDigits(line[..2]) == []
  {
    assert CharDigits(line[..1]) == [] by {
      assert line[..0] == [];
      QuietCharacter(line, 0);
    }
    QuietCharacter(line, 1);
  }

  lemma {:induction false} OneEndsThree(line: string)
    requires |line| >= 3 && line[0] == 'o' && line[1] == 'n' && line[2] == 'e'
    ensures EndsWith(line[..3], Words[0])
  {
    EndsWithSuffix(line[..3], Words[0]);
    assert line[..3] == Words[0];
  }

  /** Characters that are neither digits nor the last letter of a word add nothing. */
  lemma {:induction false} QuietRun(line: string, i: nat, n: nat)
    requires i <= n <= |line|
    requires forall j | i <= j < n :: !IsDigit(line[j]) && line[j] !in WordLastLetters
    ensures CharDigits(line[..n]) == CharDigits(line[..i])
    decreases n - i
  {
    if i < n {
      QuietCharacter(line, i);
      QuietRun(line, i + 1, n);
    }
  }

  /** (1, 9) makes 19. */
  lemma {:induction false} ExampleCreateNumber()
    ensures CreateCalibrationNumber(CalibrationDigit(1, 9)) == Ok(CalibrationNumber(19))
  {
  }
}
