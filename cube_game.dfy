/** Day 2: game records such as "Game 3: 8 green, 6 blue, 20 red; 5 blue, 4 red",
    the colour limits (12 red, 13 green, 14 blue) they are checked against,
    the fewest cubes each game needs and the two sums over a document. */
module CubeGame {
  import opened Wrappers
  import opened Seqs
  import opened Decimal
  import opened Text

  datatype Color = Blue | Green | Red

  /** `count` cubes of one colour, shown in one handful. */
  datatype Cube = Cube(count: nat, color: Color)

  /** One handful: the cubes in the order they are listed. */
  datatype Set = Set(cubes: seq<Cube>)

  datatype Game = Game(number: nat, sets: seq<Set>)

  /** The fewest cubes of each colour that make a game possible. */
  datatype MinimumSet = MinimumSet(red: Cube, green: Cube, blue: Cube)

  /** What a document adds up to (the Rust `Result` struct). */
  datatype Totals = Totals(idSum: nat, powerSum: nat)

  /** The places where the Rust parser panics. */
  datatype ParseError =
    | BadCount(kind: IntErrorKind)      // the count of a cube is not a `u64`
    | MissingColor                      // a cube token without a space
    | UnknownColor(word: string)        // a colour other than red, green or blue
    | BadGameNumber(kind: IntErrorKind) // the text before ":" is not "Game " and a `u64`
    | MissingSets                       // a line without ":"

  const GamePrefix := "Game "

  // ---------------------------------------------------------------- parsing

  function ColorName(color: Color): string {
    match color
    case Red => "red"
    case Green => "green"
    case Blue => "blue"
  }

  /** The colour a word names: the `if`/`else if` chain of `parse_cub`. */
  function ColorNamed(word: string): (r: Option<Color>)
    ensures r.Some? <==> exists color: Color :: ColorName(color) == word
    ensures r.Some? ==> ColorName(r.value) == word
  {
    if word == "red" then assert ColorName(Red) == word; Some(Red)
    else if word == "green" then assert ColorName(Green) == word; Some(Green)
    else if word == "blue" then assert ColorName(Blue) == word; Some(Blue)
    else
      assert forall color: Color :: ColorName(color) != word;
      None
  }

  /** `parse_cub`: trim, split on spaces, the first word is the count and the
      second the colour; any further words are ignored. The count is parsed
      before the colour is looked at. */
  function ParseCube(cubeString: string): (r: Result<Cube, ParseError>)
    ensures r.Ok? ==> r.value.count <= U64_MAX
    ensures Trim(cubeString) == [] ==> r == Err(BadCount(Empty))
    ensures r.Ok? ==> var words := Split(Trim(cubeString), ' ');
              |words| >= 2 && ParseU64(words[0]) == Ok(r.value.count) && ColorName(r.value.color) == words[1]
  {
    var words := Split(Trim(cubeString), ' ');
    match ParseU64(words[0])
    case Err(kind) => Err(BadCount(kind))
    case Ok(count) =>
      if |words| < 2 then Err(MissingColor)
      else
        match ColorNamed(words[1])
        case None => Err(UnknownColor(words[1]))
        case Some(color) => Ok(Cube(count, color))
  }

  /** `parse_set`: one cube per ","-separated piece, in order; the first piece
      that fails decides the error. */
  function ParseSet(setString: string): (r: Result<Set, ParseError>)
    ensures r.Ok? ==> |r.value.cubes| == |Split(setString, ',')|
    ensures r.Ok? ==> forall i | 0 <= i < |r.value.cubes| :: r.value.cubes[i].count <= U64_MAX
  {
    match TryMap(Split(setString, ','), ParseCube)
    case Err(e) => Err(e)
    case Ok(cubes) => Ok(Set(cubes))
  }

  /** `parse_game`: the number comes from the text before the first ":" with
      every "Game " removed, and is parsed before the sets are looked at; the
      sets are the ";"-separated pieces between the first and the second ":". */
  function ParseGame(line: string): (r: Result<Game, ParseError>)
    ensures r.Ok? ==> r.value.number <= U64_MAX && r.value.sets != []
    ensures r.Ok? ==> forall i | 0 <= i < |r.value.sets| :: r.value.sets[i].cubes != []
    ensures ':' !in line ==> r.Err?
  {
    var splits := Split(line, ':');
    match ParseU64(RemoveAll(splits[0], GamePrefix))
    case Err(kind) => Err(BadGameNumber(kind))
    case Ok(number) =>
      if |splits| < 2 then
        SplitNoSeparatorLength(line, ':');
        Err(MissingSets)
      else
        match TryMap(Split(splits[1], ';'), ParseSet)
        case Err(e) => Err(e)
        case Ok(sets) => Ok(Game(number, sets))
  }

  // --------------------------------------------------------------- printing

  /** A cube as the puzzle input writes it: "8 green". */
  function FormatCube(cube: Cube): string {
    ToDecimal(cube.count) + " " + ColorName(cube.color)
  }

  /** The ","-separated pieces of a set, each with its leading space. */
  function CubeTexts(cubes: seq<Cube>): (texts: seq<string>)
    ensures |texts| == |cubes|
    ensures forall i | 0 <= i < |cubes| :: texts[i] == " " + FormatCube(cubes[i])
  {
    if cubes == [] then [] else [" " + FormatCube(cubes[0])] + CubeTexts(cubes[1..])
  }

  function FormatSet(s: Set): string
    requires s.cubes != []
  {
    Join(CubeTexts(s.cubes), ',')
  }

  function SetTexts(sets: seq<Set>): (texts: seq<string>)
    requires forall i | 0 <= i < |sets| :: sets[i].cubes != []
    ensures |texts| == |sets|
    ensures forall i | 0 <= i < |sets| :: texts[i] == FormatSet(sets[i])
  {
    if sets == [] then [] else [FormatSet(sets[0])] + SetTexts(sets[1..])
  }

  /** A game the puzzle input can write: at least one set, no empty set, and
      numbers that fit a `u64`. */
  predicate Printable(game: Game) {
    && game.number <= U64_MAX
    && game.sets != []
    && forall i | 0 <= i < |game.sets| :: game.sets[i].cubes != [] && CountsFit(game.sets[i])
  }

  predicate CountsFit(s: Set) {
    forall i | 0 <= i < |s.cubes| :: s.cubes[i].count <= U64_MAX
  }

  /** A game as one line of the puzzle input:
      "Game 3: 8 green, 6 blue, 20 red; 5 blue, 4 red, 13 green; 5 green, 1 red". */
  function FormatGame(game: Game): string
    requires Printable(game)
  {
    GamePrefix + ToDecimal(game.number) + ":" + Join(SetTexts(game.sets), ';')
  }

  /** The separators the parser splits on appear in no colour name, and each
      name is read back as its colour. */
  lemma {:induction false} ColorNameRoundTrip(color: Color)
    ensures ' ' !in ColorName(color) && ',' !in ColorName(color)
    ensures ';' !in ColorName(color) && ':' !in ColorName(color)
    ensures ColorName(color) != [] && !IsWhitespace(Last(ColorName(color)))
    ensures ColorNamed(ColorName(color)) == Some(color)
  {
  }

  /** Nor in a printed number. */
  lemma {:induction false} DecimalPlain(n: nat)
    ensures ' ' !in ToDecimal(n) && ',' !in ToDecimal(n)
    ensures ';' !in ToDecimal(n) && ':' !in ToDecimal(n) && 'G' !in ToDecimal(n)
    ensures !IsWhitespace(ToDecimal(n)[0])
  {
    var d := ToDecimal(n);
    assert forall i | 0 <= i < |d| :: IsDigit(d[i]);
  }

  /** The separators `parse_game` and `parse_set` split on appear in no cube. */
  lemma {:induction false} CubeTextPlain(cube: Cube)
    ensures ',' !in " " + FormatCube(cube)
    ensures ';' !in " " + FormatCube(cube)
    ensures ':' !in " " + FormatCube(cube)
  {
    DecimalPlain(cube.count);
    ColorNameRoundTrip(cube.color);
  }

  lemma {:induction false} SetTextPlain(s: Set)
    requires s.cubes != []
    ensures ';' !in FormatSet(s) && ':' !in FormatSet(s)
  {
    var texts := CubeTexts(s.cubes);
    forall i | 0 <= i < |texts| ensures ';' !in texts[i] && ':' !in texts[i] {
      CubeTextPlain(s.cubes[i]);
    }
    JoinExcludes(texts, ',', ';');
    JoinExcludes(texts, ',', ':');
  }

  /** Parsing a printed cube gives the cube back. */
  lemma {:induction false} ParseFormattedCube(cube: Cube)
    requires cube.count <= U64_MAX
    ensures ParseCube(" " + FormatCube(cube)) == Ok(cube)
  {
    CubeTextTrims(cube);
    CubeWords(cube);
    ParseToDecimal(cube.count);
    ColorNameRoundTrip(cube.color);
  }

  /** `trim` takes the leading space off a printed cube and nothing else. */
  lemma {:induction false} CubeTextTrims(cube: Cube)
    ensures Trim(" " + FormatCube(cube)) == FormatCube(cube)
  {
    var d, name := ToDecimal(cube.count), ColorName(cube.color);
    var text := FormatCube(cube);
    DecimalPlain(cube.count);
    ColorNameRoundTrip(cube.color);
    assert text[0] == d[0];
    assert Last(text) == Last(name);
    TrimPadded(" ", text);
  }

  /** A printed cube splits on its one space into the count and the colour. */
  lemma {:induction false} CubeWords(cube: Cube)
    ensures Split(FormatCube(cube), ' ') == [ToDecimal(cube.count), ColorName(cube.color)]
  {
    DecimalPlain(cube.count);
    ColorNameRoundTrip(cube.color);
    SplitInTwo(ToDecimal(cube.count), ' ', ColorName(cube.color));
  }

  /** A cube whose colour word is none of the three is refused with that
      word, the panic of `parse_cub` on an unknown colour. */
  lemma {:induction false} ParseUnknownColor(n: nat, word: string)
    requires n <= U64_MAX
    requires word != [] && ' ' !in word && !IsWhitespace(Last(word))
    requires ColorNamed(word).None?
    ensures ParseCube(" " + ToDecimal(n) + " " + word) == Err(UnknownColor(word))
  {
    var d := ToDecimal(n);
    var text := d + " " + word;
    DecimalPlain(n);
    assert text[0] == d[0];
    assert Last(text) == Last(word);
    TrimPadded(" ", text);
    assert " " + d + " " + word == " " + text;
    SplitInTwo(d, ' ', word);
    ParseToDecimal(n);
  }

  /** Parsing a printed set gives the set back. */
  lemma {:induction false} ParseFormattedSet(s: Set)
    requires s.cubes != [] && CountsFit(s)
    ensures ParseSet(FormatSet(s)) == Ok(s)
  {
    var texts := CubeTexts(s.cubes);
    forall i | 0 <= i < |texts| ensures ',' !in texts[i] && ParseCube(texts[i]) == Ok(s.cubes[i]) {
      CubeTextPlain(s.cubes[i]);
      ParseFormattedCube(s.cubes[i]);
    }
    SplitJoin(texts, ',');
    TryMapAllOk(texts, ParseCube, s.cubes);
  }

  /** Parsing a printed game gives the game back: `parse_game` reads what the
      puzzle input writes. */
  lemma {:induction false} ParseFormattedGame(game: Game)
    requires Printable(game)
    ensures ParseGame(FormatGame(game)) == Ok(game)
  {
    var texts := SetTexts(game.sets);
    forall i | 0 <= i < |texts| ensures ';' !in texts[i] && ParseSet(texts[i]) == Ok(game.sets[i]) {
      SetTextPlain(game.sets[i]);
      ParseFormattedSet(game.sets[i]);
    }
    GameLineSplits(game);
    DecimalPlain(game.number);
    RemoveAllLeading(GamePrefix, ToDecimal(game.number));
    ParseToDecimal(game.number);
    SplitJoin(texts, ';');
    TryMapAllOk(texts, ParseSet, game.sets);
  }

  /** A printed game splits on its one ":" into the number part and the sets. */
  lemma {:induction false} GameLineSplits(game: Game)
    requires Printable(game)
    ensures Split(FormatGame(game), ':') == [GamePrefix + ToDecimal(game.number), Join(SetTexts(game.sets), ';')]
  {
    var texts := SetTexts(game.sets);
    forall i | 0 <= i < |texts| ensures ':' !in texts[i] {
      SetTextPlain(game.sets[i]);
    }
    JoinExcludes(texts, ';', ':');
    DecimalPlain(game.number);
    SplitInTwo(GamePrefix + ToDecimal(game.number), ':', Join(texts, ';'));
  }

  // ---------------------------------------------------------------- limits

  /** How many cubes of each colour the bag holds. */
  function Limit(color: Color): nat {
    match color
    case Red => 12
    case Green => 13
    case Blue => 14
  }

  /** The filter of `is_set_impossible`: more cubes than the bag holds. */
  predicate Exceeds(cube: Cube) {
    cube.count > Limit(cube.color)
  }

  /** `is_set_impossible`: the cubes that exceed their limit are collected and
      the set is impossible when there is one. */
  function IsSetImpossible(s: Set): (r: bool)
    ensures r <==> exists i | 0 <= i < |s.cubes| :: Exceeds(s.cubes[i])
  {
    FilterKeeps(s.cubes, Exceeds);
    Filter(s.cubes, Exceeds) != []
  }

  /** `is_game_possible`: the impossible sets are collected and the game is
      possible when there is none. */
  function IsGamePossible(game: Game): (r: bool)
    ensures r <==> forall i | 0 <= i < |game.sets| :: !IsSetImpossible(game.sets[i])
  {
    FilterKeeps(game.sets, IsSetImpossible);
    Filter(game.sets, IsSetImpossible) == []
  }

  /** A game is possible exactly when every cube shown fits the bag. */
  lemma {:induction false} PossibleIffEveryCubeFits(game: Game)
    ensures IsGamePossible(game) <==>
              forall i, cube | 0 <= i < |game.sets| && cube in game.sets[i].cubes :: cube.count <= Limit(cube.color)
  {
    if IsGamePossible(game) {
      forall i, cube | 0 <= i < |game.sets| && cube in game.sets[i].cubes
        ensures cube.count <= Limit(cube.color)
      {
        var j :| 0 <= j < |game.sets[i].cubes| && game.sets[i].cubes[j] == cube;
      }
    } else {
      var i :| 0 <= i < |game.sets| && IsSetImpossible(game.sets[i]);
      var j :| 0 <= j < |game.sets[i].cubes| && Exceeds(game.sets[i].cubes[j]);
      assert game.sets[i].cubes[j] in game.sets[i].cubes;
    }
  }

  /** One handful with one kind of cube is possible exactly up to the limit. */
  lemma {:induction false} SingleCubeGame(number: nat, cube: Cube)
    ensures IsGamePossible(Game(number, [Set([cube])])) <==> cube.count <= Limit(cube.color)
  {
    var game := Game(number, [Set([cube])]);
    PossibleIffEveryCubeFits(game);
    assert cube in game.sets[0].cubes;
  }

  /** The limits tested on both sides: 12 red, 13 green and 14 blue are
      possible; one more of any is not. */
  lemma {:induction false} LimitBoundaries()
    ensures IsGamePossible(Game(1, [Set([Cube(12, Red)])]))
    ensures !IsGamePossible(Game(1, [Set([Cube(13, Red)])]))
    ensures IsGamePossible(Game(1, [Set([Cube(13, Green)])]))
    ensures !IsGamePossible(Game(1, [Set([Cube(14, Green)])]))
    ensures IsGamePossible(Game(1, [Set([Cube(14, Blue)])]))
    ensures !IsGamePossible(Game(1, [Set([Cube(15, Blue)])]))
  {
    SingleCubeGame(1, Cube(12, Red));
    SingleCubeGame(1, Cube(13, Red));
    SingleCubeGame(1, Cube(13, Green));
    SingleCubeGame(1, Cube(14, Green));
    SingleCubeGame(1, Cube(14, Blue));
    SingleCubeGame(1, Cube(15, Blue));
  }

  // -------------------------------------------------------- minimum cubes

  /** `game.sets.iter().flat_map(|set| set.cubes.clone())`: every cube of the
      game, set after set. */
  function AllCubes(sets: seq<Set>): seq<Cube> {
    if sets == [] then [] else sets[0].cubes + AllCubes(sets[1..])
  }

  /** The flattened cubes are exactly the cubes of the sets. */
  lemma {:induction false} AllCubesMembers(sets: seq<Set>)
    ensures forall cube :: cube in AllCubes(sets) <==> exists i | 0 <= i < |sets| :: cube in sets[i].cubes
  {
    if sets != [] {
      var rest := sets[1..];
      AllCubesMembers(rest);
      assert forall i | 0 <= i < |rest| :: rest[i] == sets[i + 1];
      forall cube | exists i | 0 <= i < |sets| :: cube in sets[i].cubes
        ensures cube in AllCubes(sets)
      {
        var i :| 0 <= i < |sets| && cube in sets[i].cubes;
        if i > 0 {
          assert cube in rest[i - 1].cubes;
        }
      }
    }
  }

  /** `.filter(color).max_by_key(count).map(count).or_else(0)`: the largest
      count among the cubes of `color`, or 0 when there is none. */
  function MaxCount(cubes: seq<Cube>, color: Color): nat {
    if cubes == [] then 0
    else
      var m := MaxCount(cubes[1..], color);
      if cubes[0].color == color && cubes[0].count >= m then cubes[0].count else m
  }

  /** No cube of `color` has more than `MaxCount`, and unless it is 0 one has
      exactly that many. */
  lemma {:induction false} MaxCountIsLargest(cubes: seq<Cube>, color: Color)
    ensures forall cube | cube in cubes && cube.color == color :: cube.count <= MaxCount(cubes, color)
    ensures MaxCount(cubes, color) == 0 || exists cube | cube in cubes :: cube.color == color && cube.count == MaxCount(cubes, color)
  {
    if cubes != [] {
      MaxCountIsLargest(cubes[1..], color);
      assert cubes == [cubes[0]] + cubes[1..];
    }
  }

  /** `m` is the largest count of `color` in `game`, and 0 when the colour is
      never shown: every such cube has at most `m`, and one has exactly `m`. */
  predicate IsMaximum(game: Game, color: Color, m: nat) {
    && (forall i, cube | 0 <= i < |game.sets| && cube in game.sets[i].cubes && cube.color == color :: cube.count <= m)
    && (m == 0 || exists i, cube | 0 <= i < |game.sets| && cube in game.sets[i].cubes :: cube.color == color && cube.count == m)
  }

  /** The maximum is determined by the game. */
  lemma {:induction false} MaximumUnique(game: Game, color: Color, m: nat, n: nat)
    requires IsMaximum(game, color, m) && IsMaximum(game, color, n)
    ensures m == n
  {
  }

  /** `determine_minimum_cubes`: for each colour the largest count shown in
      any set, 0 for a colour never shown. */
  function DetermineMinimumCubes(game: Game): (r: MinimumSet)
    ensures r.red.color == Red && r.green.color == Green && r.blue.color == Blue
  {
    var cubes := AllCubes(game.sets);
    MinimumSet(
      Cube(MaxCount(cubes, Red), Red),
      Cube(MaxCount(cubes, Green), Green),
      Cube(MaxCount(cubes, Blue), Blue))
  }

  /** Each count of the minimum set is the largest count of its colour over
      all sets of the game, or 0 for a colour never shown. */
  lemma {:induction false} MinimumIsMaximum(game: Game)
    ensures IsMaximum(game, Red, DetermineMinimumCubes(game).red.count)
    ensures IsMaximum(game, Green, DetermineMinimumCubes(game).green.count)
    ensures IsMaximum(game, Blue, DetermineMinimumCubes(game).blue.count)
  {
    var cubes := AllCubes(game.sets);
    AllCubesMembers(game.sets);
    MaxCountIsLargest(cubes, Red);
    MaxCountIsLargest(cubes, Green);
    MaxCountIsLargest(cubes, Blue);
  }

  predicate WithinLimits(m: MinimumSet) {
    m.red.count <= Limit(Red) && m.green.count <= Limit(Green) && m.blue.count <= Limit(Blue)
  }

  /** A game is possible exactly when its minimum set fits the bag. */
  lemma {:induction false} PossibleIffMinimumWithinLimits(game: Game)
    ensures IsGamePossible(game) <==> WithinLimits(DetermineMinimumCubes(game))
  {
    PossibleIffEveryCubeFits(game);
    if IsGamePossible(game) {
      PossibleMinimumFits(game);
    } else {
      CubesWithinMinimum(game);
    }
  }

  lemma {:induction false} PossibleMinimumFits(game: Game)
    requires forall i, cube | 0 <= i < |game.sets| && cube in game.sets[i].cubes :: cube.count <= Limit(cube.color)
    ensures WithinLimits(DetermineMinimumCubes(game))
  {
    var m := DetermineMinimumCubes(game);
    MinimumIsMaximum(game);
    MaximumFits(game, Red, m.red.count);
    MaximumFits(game, Green, m.green.count);
    MaximumFits(game, Blue, m.blue.count);
  }

  /** Every cube shown is within the minimum set's count of its colour. */
  lemma {:induction false} CubesWithinMinimum(game: Game)
    ensures WithinLimits(DetermineMinimumCubes(game)) ==>
              forall i, cube | 0 <= i < |game.sets| && cube in game.sets[i].cubes :: cube.count <= Limit(cube.color)
  {
    var m := DetermineMinimumCubes(game);
    MinimumIsMaximum(game);
    forall i, cube | 0 <= i < |game.sets| && cube in game.sets[i].cubes
      ensures cube.count <= MinimumCount(m, cube.color)
    {
    }
  }

  /** The count of `color` in a minimum set. */
  function MinimumCount(m: MinimumSet, color: Color): nat {
    match color
    case Red => m.red.count
    case Green => m.green.count
    case Blue => m.blue.count
  }

  lemma {:induction false} MaximumFits(game: Game, color: Color, m: nat)
    requires IsMaximum(game, color, m)
    requires forall i, cube | 0 <= i < |game.sets| && cube in game.sets[i].cubes :: cube.count <= Limit(cube.color)
    ensures m <= Limit(color)
  {
    if m != 0 {
      var i, cube :| 0 <= i < |game.sets| && cube in game.sets[i].cubes && cube.color == color && cube.count == m;
    }
  }

  // ----------------------------------------------------------------- power

  /** `calc_set_power`: the product of the three counts. */
  function CalcSetPower(m: MinimumSet): (p: nat)
    ensures p == 0 <==> m.red.count == 0 || m.green.count == 0 || m.blue.count == 0
    ensures p != 0 ==> m.red.count <= p && m.green.count <= p && m.blue.count <= p
  {
    ProductBounds(m.red.count, m.green.count, m.blue.count);
    m.red.count * m.green.count * m.blue.count
  }

  /** A product of three factors is 0 when one is, and otherwise at least
      each factor. */
  lemma {:induction false} ProductBounds(a: nat, b: nat, c: nat)
    ensures a * b * c == 0 <==> a == 0 || b == 0 || c == 0
    ensures a * b * c != 0 ==> a <= a * b * c && b <= a * b * c && c <= a * b * c
  {
    if a != 0 && b != 0 && c != 0 {
      assert a * b == a + a * (b - 1);
      assert a * b * c == a * b + a * b * (c - 1);
      assert a * b == b + (a - 1) * b;
    }
  }

  /** Every cube of `color` in `game` shows no cube at all. */
  predicate NeverShown(game: Game, color: Color) {
    forall i, cube | 0 <= i < |game.sets| && cube in game.sets[i].cubes && cube.color == color :: cube.count == 0
  }

  /** A game's power is 0 exactly when one colour is never drawn. */
  lemma {:induction false} PowerZeroIffColorNeverShown(game: Game)
    ensures CalcSetPower(DetermineMinimumCubes(game)) == 0 <==>
              NeverShown(game, Red) || NeverShown(game, Green) || NeverShown(game, Blue)
  {
    var m := DetermineMinimumCubes(game);
    MinimumIsMaximum(game);
    MaximumZero(game, Red, m.red.count);
    MaximumZero(game, Green, m.green.count);
    MaximumZero(game, Blue, m.blue.count);
  }

  lemma {:induction false} MaximumZero(game: Game, color: Color, m: nat)
    requires IsMaximum(game, color, m)
    ensures m == 0 <==> NeverShown(game, color)
  {
    if m != 0 {
      var i, cube :| 0 <= i < |game.sets| && cube in game.sets[i].cubes && cube.color == color && cube.count == m;
    }
  }

  // ------------------------------------------------------------ documents

  function GameNumber(game: Game): nat {
    game.number
  }

  function GamePower(game: Game): nat {
    CalcSetPower(DetermineMinimumCubes(game))
  }

  /** A game's contribution to the id sum. */
  function PossibleNumber(game: Game): nat {
    if IsGamePossible(game) then game.number else 0
  }

  /** The first fold of `process_input`: the numbers of the possible games. */
  function IdSum(games: seq<Game>): (r: nat)
    ensures r == SumBy(games, PossibleNumber)
    ensures r <= SumBy(games, GameNumber)
  {
    var r := SumBy(Filter(games, IsGamePossible), GameNumber);
    SumByFilter(games, IsGamePossible, GameNumber, PossibleNumber);
    SumByMonotone(games, PossibleNumber, GameNumber);
    r
  }

  /** The second fold of `process_input`: the powers of all the games. */
  function PowerSum(games: seq<Game>): (r: nat)
    ensures r == SumBy(games, GamePower)
    ensures forall i | 0 <= i < |games| :: GamePower(games[i]) <= r
    ensures r == 0 <==> forall i | 0 <= i < |games| :: GamePower(games[i]) == 0
  {
    SumByAtLeast(games, GamePower);
    SumByBound(games, GamePower, 0);
    SumBy(games, GamePower)
  }

  /** Reordering the games changes neither sum. */
  lemma {:induction false} TotalsOrderIndependent(games: seq<Game>, reordered: seq<Game>)
    requires multiset(games) == multiset(reordered)
    ensures IdSum(games) == IdSum(reordered)
    ensures PowerSum(games) == PowerSum(reordered)
  {
    SumByPermutation(games, reordered, PossibleNumber);
    SumByPermutation(games, reordered, GamePower);
  }

  /** `process_input` after the lines are parsed. */
  function ProcessGames(games: seq<Game>): Totals {
    Totals(IdSum(games), PowerSum(games))
  }

  /** A line's contribution to each sum; 0 for a line that does not parse. */
  function LineId(line: string): nat {
    match ParseGame(line) case Ok(game) => PossibleNumber(game) case Err(_) => 0
  }

  function LinePower(line: string): nat {
    match ParseGame(line) case Ok(game) => GamePower(game) case Err(_) => 0
  }

  /** `process_input` on the lines of a document: every line is parsed, the
      first one that does not parse decides the error, and the sums cover
      every game. */
  function ProcessInput(lines: seq<string>): (r: Result<Totals, ParseError>)
    ensures r.Ok? <==> forall i | 0 <= i < |lines| :: ParseGame(lines[i]).Ok?
    ensures r.Err? ==> exists i | 0 <= i < |lines| ::
                         ParseGame(lines[i]) == Err(r.error) && forall j | 0 <= j < i :: ParseGame(lines[j]).Ok?
    ensures r.Ok? ==> r.value.idSum == SumBy(lines, LineId) && r.value.powerSum == SumBy(lines, LinePower)
  {
    match TryMap(lines, ParseGame)
    case Err(e) => Err(e)
    case Ok(games) =>
      SumByPointwise(games, PossibleNumber, lines, LineId);
      SumByPointwise(games, GamePower, lines, LinePower);
      Ok(ProcessGames(games))
  }

  // -------------------------------------------------------------- examples

  /** The five games of the tests of `determine_minimum_cubes` and
      `calc_set_power`, which are the puzzle's five sample games. The file the
      test of `process_input` reads is not part of this model; these games are
      taken to be its lines because they total the 8 and 2286 it expects. */
  const Game1 := Game(1, [Set([Cube(3, Blue), Cube(4, Red)]), Set([Cube(1, Red), Cube(2, Green), Cube(6, Blue)]), Set([Cube(2, Green)])])
  const Game2 := Game(2, [Set([Cube(1, Blue), Cube(2, Green)]), Set([Cube(3, Green), Cube(4, Blue), Cube(1, Red)]), Set([Cube(1, Green), Cube(1, Blue)])])
  const Game3 := Game(3, [Set([Cube(8, Green), Cube(6, Blue), Cube(20, Red)]), Set([Cube(5, Blue), Cube(4, Red), Cube(13, Green)]), Set([Cube(5, Green), Cube(1, Red)])])
  const Game4 := Game(4, [Set([Cube(1, Green), Cube(3, Red), Cube(6, Blue)]), Set([Cube(3, Green), Cube(6, Red)]), Set([Cube(3, Green), Cube(15, Blue), Cube(14, Red)])])
  const Game5 := Game(5, [Set([Cube(6, Red), Cube(1, Blue), Cube(3, Green)]), Set([Cube(2, Blue), Cube(1, Red), Cube(2, Green)])])

  function Minimum(red: nat, green: nat, blue: nat): MinimumSet {
    MinimumSet(Cube(red, Red), Cube(green, Green), Cube(blue, Blue))
  }

  /** A single colour shown once: that count, 0 for the other two. */
  lemma {:induction false} ExampleSingleColorMinimum()
    ensures DetermineMinimumCubes(Game(1, [Set([Cube(10, Red)])])) == Minimum(10, 0, 0)
    ensures DetermineMinimumCubes(Game(1, [Set([Cube(15, Green)])])) == Minimum(0, 15, 0)
    ensures DetermineMinimumCubes(Game(1, [Set([Cube(20, Blue)])])) == Minimum(0, 0, 20)
  {
  }

  /** The largest count of `color` across a concatenation of cube lists. */
  lemma {:induction false} MaxCountAppend(a: seq<Cube>, b: seq<Cube>, color: Color)
    ensures MaxCount(a + b, color) == if MaxCount(a, color) >= MaxCount(b, color) then MaxCount(a, color) else MaxCount(b, color)
  {
    if a != [] {
      assert (a + b)[1..] == a[1..] + b;
      MaxCountAppend(a[1..], b, color);
    } else {
      assert a + b == b;
    }
  }

  function Larger(a: nat, b: nat): nat {
    if a >= b then a else b
  }

  /** The count of `cube` if it has `color`, 0 otherwise. */
  function Shown(cube: Cube, color: Color): nat {
    if cube.color == color then cube.count else 0
  }

  /** The largest count of `color` among one, two or three cubes. */
  lemma {:induction false} MaxCountOfFew(c: seq<Cube>, color: Color)
    requires 1 <= |c| <= 3
    ensures |c| == 1 ==> MaxCount(c, color) == Shown(c[0], color)
    ensures |c| == 2 ==> MaxCount(c, color) == Larger(Shown(c[0], color), Shown(c[1], color))
    ensures |c| == 3 ==> MaxCount(c, color) == Larger(Shown(c[0], color), Larger(Shown(c[1], color), Shown(c[2], color)))
  {
    assert MaxCount(c[|c|..], color) == 0;
    assert MaxCount(c, color) == Larger(Shown(c[0], color), MaxCount(c[1..], color));
    if |c| >= 2 {
      assert c[1..][1..] == c[2..];
      assert MaxCount(c[1..], color) == Larger(Shown(c[1], color), MaxCount(c[2..], color));
    }
    if |c| == 3 {
      assert c[2..][1..] == c[3..];
      assert MaxCount(c[2..], color) == Larger(Shown(c[2], color), MaxCount(c[3..], color));
    }
  }

  /** The largest count of each colour in a set of one, two or three cubes. */
  lemma {:induction false} MaxCountOfSet(s: Set)
    requires 1 <= |s.cubes| <= 3
    ensures |s.cubes| == 1 ==> forall color :: MaxCount(s.cubes, color) == Shown(s.cubes[0], color)
    ensures |s.cubes| == 2 ==> forall color :: MaxCount(s.cubes, color) == Larger(Shown(s.cubes[0], color), Shown(s.cubes[1], color))
    ensures |s.cubes| == 3 ==> forall color :: MaxCount(s.cubes, color) == Larger(Shown(s.cubes[0], color), Larger(Shown(s.cubes[1], color), Shown(s.cubes[2], color)))
  {
    forall color: Color
      ensures |s.cubes| == 1 ==> MaxCount(s.cubes, color) == Shown(s.cubes[0], color)
      ensures |s.cubes| == 2 ==> MaxCount(s.cubes, color) == Larger(Shown(s.cubes[0], color), Shown(s.cubes[1], color))
      ensures |s.cubes| == 3 ==> MaxCount(s.cubes, color) == Larger(Shown(s.cubes[0], color), Larger(Shown(s.cubes[1], color), Shown(s.cubes[2], color)))
    {
      MaxCountOfFew(s.cubes, color);
    }
  }

  /** The largest count of `color` in a game of three sets, from the largest
      count of each set. */
  lemma {:induction false} MaxCountOfThreeSets(s0: Set, s1: Set, s2: Set, color: Color)
    ensures MaxCount(AllCubes([s0, s1, s2]), color) == Larger(MaxCount(s0.cubes, color), Larger(MaxCount(s1.cubes, color), MaxCount(s2.cubes, color)))
  {
    var sets := [s0, s1, s2];
    assert AllCubes(sets[2..]) == s2.cubes + AllCubes([]) by { assert sets[2..][1..] == []; }
    assert AllCubes(sets[1..]) == s1.cubes + AllCubes(sets[2..]) by { assert sets[1..][1..] == sets[2..]; }
    assert AllCubes(sets) == s0.cubes + (s1.cubes + s2.cubes) by { assert s2.cubes + [] == s2.cubes; }
    MaxCountAppend(s1.cubes, s2.cubes, color);
    MaxCountAppend(s0.cubes, s1.cubes + s2.cubes, color);
  }

  /** The same for a game of two sets. */
  lemma {:induction false} MaxCountOfTwoSets(s0: Set, s1: Set, color: Color)
    ensures MaxCount(AllCubes([s0, s1]), color) == Larger(MaxCount(s0.cubes, color), MaxCount(s1.cubes, color))
  {
    var sets := [s0, s1];
    assert AllCubes(sets[1..]) == s1.cubes + AllCubes([]) by { assert sets[1..][1..] == []; }
    assert AllCubes(sets) == s0.cubes + s1.cubes by { assert s1.cubes + [] == s1.cubes; }
    MaxCountAppend(s0.cubes, s1.cubes, color);
  }

  /** The minimum sets of the five sample games, one lemma each. */
  lemma {:induction false} ExampleMinimumGame1()
    ensures DetermineMinimumCubes(Game1) == Minimum(4, 2, 6)
  {
    var s := Game1.sets;
    MaxCountOfSet(s[0]);
    MaxCountOfSet(s[1]);
    MaxCountOfSet(s[2]);
    MaxCountOfThreeSets(s[0], s[1], s[2], Red);
    MaxCountOfThreeSets(s[0], s[1], s[2], Green);
    MaxCountOfThreeSets(s[0], s[1], s[2], Blue);
    assert s == [s[0], s[1], s[2]];
  }

  lemma {:induction false} ExampleMinimumGame2()
    ensures DetermineMinimumCubes(Game2) == Minimum(1, 3, 4)
  {
    var s := Game2.sets;
    MaxCountOfSet(s[0]);
    MaxCountOfSet(s[1]);
    MaxCountOfSet(s[2]);
    MaxCountOfThreeSets(s[0], s[1], s[2], Red);
    MaxCountOfThreeSets(s[0], s[1], s[2], Green);
    MaxCountOfThreeSets(s[0], s[1], s[2], Blue);
    assert s == [s[0], s[1], s[2]];
  }

  lemma {:induction false} ExampleMinimumGame3()
    ensures DetermineMinimumCubes(Game3) == Minimum(20, 13, 6)
  {
    var s := Game3.sets;
    MaxCountOfSet(s[0]);
    MaxCountOfSet(s[1]);
    MaxCountOfSet(s[2]);
    MaxCountOfThreeSets(s[0], s[1], s[2], Red);
    MaxCountOfThreeSets(s[0], s[1], s[2], Green);
    MaxCountOfThreeSets(s[0], s[1], s[2], Blue);
    assert s == [s[0], s[1], s[2]];
  }

  lemma {:induction false} ExampleMinimumGame4()
    ensures DetermineMinimumCubes(Game4) == Minimum(14, 3, 15)
  {
    var s := Game4.sets;
    MaxCountOfSet(s[0]);
    MaxCountOfSet(s[1]);
    MaxCountOfSet(s[2]);
    MaxCountOfThreeSets(s[0], s[1], s[2], Red);
    MaxCountOfThreeSets(s[0], s[1], s[2], Green);
    MaxCountOfThreeSets(s[0], s[1], s[2], Blue);
    assert s == [s[0], s[1], s[2]];
  }

  lemma {:induction false} ExampleMinimumGame5()
    ensures DetermineMinimumCubes(Game5) == Minimum(6, 3, 2)
  {
    var s := Game5.sets;
    MaxCountOfSet(s[0]);
    MaxCountOfSet(s[1]);
    MaxCountOfTwoSets(s[0], s[1], Red);
    MaxCountOfTwoSets(s[0], s[1], Green);
    MaxCountOfTwoSets(s[0], s[1], Blue);
    assert s == [s[0], s[1]];
  }

  lemma {:induction false} ExampleSamplePowers()
    ensures CalcSetPower(Minimum(4, 2, 6)) == 48
    ensures CalcSetPower(Minimum(1, 3, 4)) == 12
    ensures CalcSetPower(Minimum(20, 13, 6)) == 1560
    ensures CalcSetPower(Minimum(14, 3, 15)) == 630
    ensures CalcSetPower(Minimum(6, 3, 2)) == 36
  {
  }

  /** Each sample game's share of the two sums: games 3 and 4 are not
      possible (20 red, then 15 blue). */
  lemma {:induction false} ExampleSampleScores()
    ensures PossibleNumber(Game1) == 1 && GamePower(Game1) == 48
    ensures PossibleNumber(Game2) == 2 && GamePower(Game2) == 12
    ensures PossibleNumber(Game3) == 0 && GamePower(Game3) == 1560
    ensures PossibleNumber(Game4) == 0 && GamePower(Game4) == 630
    ensures PossibleNumber(Game5) == 5 && GamePower(Game5) == 36
  {
    ExampleMinimumGame1();
    ExampleMinimumGame2();
    ExampleMinimumGame3();
    ExampleMinimumGame4();
    ExampleMinimumGame5();
    PossibleIffMinimumWithinLimits(Game1);
    PossibleIffMinimumWithinLimits(Game2);
    PossibleIffMinimumWithinLimits(Game3);
    PossibleIffMinimumWithinLimits(Game4);
    PossibleIffMinimumWithinLimits(Game5);
  }

  /** The five sample games as a document: games 1, 2 and 5 are possible
      (1 + 2 + 5 = 8) and the powers add up to 2286, the totals the test of
      `process_input` expects. */
  lemma {:induction false} ExampleSampleDocument()
    ensures ProcessGames([Game1, Game2, Game3, Game4, Game5]) == Totals(8, 2286)
  {
    ExampleSampleScores();
    SampleTotals(Game1, Game2, Game3, Game4, Game5);
  }

  /** Five games whose shares are those of the sample games add up as the
      sample games do. */
  lemma {:induction false} SampleTotals(g1: Game, g2: Game, g3: Game, g4: Game, g5: Game)
    requires PossibleNumber(g1) == 1 && GamePower(g1) == 48
    requires PossibleNumber(g2) == 2 && GamePower(g2) == 12
    requires PossibleNumber(g3) == 0 && GamePower(g3) == 1560
    requires PossibleNumber(g4) == 0 && GamePower(g4) == 630
    requires PossibleNumber(g5) == 5 && GamePower(g5) == 36
    ensures ProcessGames([g1, g2, g3, g4, g5]) == Totals(8, 2286)
  {
    SumOfFive([g1, g2, g3, g4, g5], PossibleNumber);
    SumOfFive([g1, g2, g3, g4, g5], GamePower);
  }

  lemma {:induction false} SumOfFive(games: seq<Game>, f: Game -> nat)
    requires |games| == 5
    ensures SumBy(games, f) == f(games[0]) + f(games[1]) + f(games[2]) + f(games[3]) + f(games[4])
  {
    assert games[..1][..0] == [];
    assert SumBy(games[..1], f) == f(games[0]);
    assert games[..2][..1] == games[..1];
    assert SumBy(games[..2], f) == SumBy(games[..1], f) + f(games[1]);
    assert games[..3][..2] == games[..2];
    assert SumBy(games[..3], f) == SumBy(games[..2], f) + f(games[2]);
    assert games[..4][..3] == games[..3];
    assert SumBy(games[..4], f) == SumBy(games[..3], f) + f(games[3]);
    assert games[..5][..4] == games[..4];
    assert games[..5] == games;
  }

  /** Game 3 as the puzzle input prints it, the line the test of
      `parse_game` reads, parses back into game 3. */
  lemma {:induction false} ExampleParseGame()
    ensures Printable(Game3) && ParseGame(FormatGame(Game3)) == Ok(Game3)
  {
    assert Printable(Game3) by { SamplePrintable(); }
    ParseFormattedGame(Game3);
  }

  /** The five sample games can be written as lines of the puzzle input. */
  lemma {:induction false} SamplePrintable()
    ensures Printable(Game1) && Printable(Game2) && Printable(Game3) && Printable(Game4) && Printable(Game5)
  {
    assert Printable(Game1) by { SetsPrintable(Game1); }
    assert Printable(Game2) by { SetsPrintable(Game2); }
    assert Printable(Game3) by { SetsPrintable(Game3); }
    assert Printable(Game4) by { SetsPrintable(Game4); }
    assert Printable(Game5) by { SetsPrintable(Game5); }
  }

  /** A game of two or three sets of two or three small cubes is printable. */
  lemma {:induction false} SetsPrintable(game: Game)
    requires game.number <= U64_MAX && 2 <= |game.sets| <= 3
    requires forall i | 0 <= i < |game.sets| :: 1 <= |game.sets[i].cubes| <= 3
    requires forall i, j | 0 <= i < |game.sets| && 0 <= j < |game.sets[i].cubes| :: game.sets[i].cubes[j].count <= 20
    ensures Printable(game)
  {
  }

  /** The five sample games written as lines of the puzzle input: the lines
      parse back into the games, so `process_input` yields 8 and 2286. */
  lemma {:induction false} ExampleSampleLines()
    ensures forall i | 0 <= i < 5 :: Printable([Game1, Game2, Game3, Game4, Game5][i])
    ensures ProcessInput(FormatDocument([Game1, Game2, Game3, Game4, Game5])) == Ok(Totals(8, 2286))
  {
    var games := [Game1, Game2, Game3, Game4, Game5];
    assert forall i | 0 <= i < |games| :: Printable(games[i]) by { SamplePrintable(); }
    assert ProcessGames(games) == Totals(8, 2286) by { ExampleSampleDocument(); }
    ProcessFormattedDocument(games);
  }

  /** A document as the puzzle input writes it: one line per game. */
  function FormatDocument(games: seq<Game>): (lines: seq<string>)
    requires forall i | 0 <= i < |games| :: Printable(games[i])
    ensures |lines| == |games|
    ensures forall i | 0 <= i < |games| :: lines[i] == FormatGame(games[i])
  {
    seq(|games|, i requires 0 <= i < |games| => FormatGame(games[i]))
  }

  /** `process_input` on a printed document yields the totals of its games. */
  lemma {:induction false} ProcessFormattedDocument(games: seq<Game>)
    requires forall i | 0 <= i < |games| :: Printable(games[i])
    ensures ProcessInput(FormatDocument(games)) == Ok(ProcessGames(games))
  {
    var lines := FormatDocument(games);
    forall i | 0 <= i < |lines| ensures ParseGame(lines[i]) == Ok(games[i]) {
      ParseFormattedGame(games[i]);
    }
    TryMapAllOk(lines, ParseGame, games);
  }
}
