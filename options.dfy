/** Building options: what the build dice let the player construct (each
    die alone, with the other die as population gain, or the two dice's
    sum), and the one-per-game limits the board imposes on them. */
module BuildOptions {
  import opened Board
  import opened Dice

  /** The building a build value (or a sum of two) stands for: 1 Cottage,
      2 Farm, 3 Quarry, 4 Windmill, 5 Market, 6 Springhouse, 7 Townhall,
      8 University, 9 Almshouse, 10 Guild; any other number stands for none. */
  function CodeOfValue(v: int): (r: Option<Code>)
    ensures r.Some? <==> 1 <= v <= 10
  {
    if v == 1 then Some(C) else if v == 2 then Some(F) else if v == 3 then Some(Q)
    else if v == 4 then Some(W) else if v == 5 then Some(M) else if v == 6 then Some(S)
    else if v == 7 then Some(T) else if v == 8 then Some(U) else if v == 9 then Some(A)
    else if v == 10 then Some(G) else None
  }

  /** The number a building is rolled with. */
  function ValueOfCode(code: Code): (v: int)
    ensures 1 <= v <= 10
  {
    match code
    case C => 1 case F => 2 case Q => 3 case W => 4 case M => 5
    case S => 6 case T => 7 case U => 8 case A => 9 case G => 10
  }

  /** The two tables are inverse to each other. */
  lemma CodeValueRoundTrip(code: Code, v: int)
    ensures CodeOfValue(ValueOfCode(code)) == Some(code)
    ensures CodeOfValue(v).Some? ==> ValueOfCode(CodeOfValue(v).value) == v
  {
  }

  /** A die's contribution to a combination: a number, or nothing. */
  type Val = Option<int>

  /** The values a build die may take: its possible values, or a single
      "nothing" for a die without any. */
  function ValuesForBuild(d: Die): (vs: seq<Val>)
    ensures |vs| >= 1
    ensures PossibleValues(d) == [] ==> vs == [None]
    ensures PossibleValues(d) != [] ==> forall v :: v in vs <==> v.Some? && v.value in PossibleValues(d)
  {
    var pv := PossibleValues(d);
    if pv == [] then [None] else Numbers(pv)
  }

  function Numbers(ns: seq<int>): (vs: seq<Val>)
    ensures |vs| == |ns|
    ensures forall v :: v in vs <==> v.Some? && v.value in ns
  {
    if ns == [] then [] else [Some(ns[0])] + Numbers(ns[1..])
  }

  function ValuesPerDie(dice: seq<Die>): (vals: seq<seq<Val>>)
    ensures |vals| == |dice|
    ensures forall k :: 0 <= k < |dice| ==> vals[k] == ValuesForBuild(dice[k])
  {
    seq(|dice|, k requires 0 <= k < |dice| => ValuesForBuild(dice[k]))
  }

  // ----- every combination of one value per die -----

  function PrefixAll(acc: seq<Val>, combos: seq<seq<Val>>): (r: seq<seq<Val>>)
    ensures |r| == |combos|
    ensures forall k :: 0 <= k < |r| ==> r[k] == acc + combos[k]
  {
    seq(|combos|, k requires 0 <= k < |combos| => acc + combos[k])
  }

  /** Each value of `first` followed by each combination of `rest`. */
  function Expand(first: seq<Val>, rest: seq<seq<Val>>): seq<seq<Val>> {
    if first == [] then [] else PrefixAll([first[0]], rest) + Expand(first[1..], rest)
  }

  /** Every way of choosing one value per die, in the order a depth-first
      enumeration visits them. */
  function Product(vals: seq<seq<Val>>): seq<seq<Val>> {
    if vals == [] then [[]] else Expand(vals[0], Product(vals[1..]))
  }

  /** combo picks one value from each die's values. */
  predicate IsChoice(vals: seq<seq<Val>>, combo: seq<Val>) {
    |combo| == |vals| && forall k :: 0 <= k < |vals| ==> combo[k] in vals[k]
  }

  lemma {:induction false} ExpandMembers(first: seq<Val>, rest: seq<seq<Val>>, combo: seq<Val>)
    ensures combo in Expand(first, rest) <==> |combo| > 0 && combo[0] in first && combo[1..] in rest
  {
    if first != [] {
      ExpandMembers(first[1..], rest, combo);
      if combo in PrefixAll([first[0]], rest) {
        var k :| 0 <= k < |rest| && combo == [first[0]] + rest[k];
        assert combo[1..] == rest[k];
      }
      if |combo| > 0 && combo[0] == first[0] && combo[1..] in rest {
        var k :| 0 <= k < |rest| && rest[k] == combo[1..];
        assert combo == [first[0]] + rest[k];
        assert PrefixAll([first[0]], rest)[k] == combo;
      }
    }
  }

  /** The enumeration lists exactly the choices of one value per die. */
  lemma {:induction false} ProductMembers(vals: seq<seq<Val>>, combo: seq<Val>)
    ensures combo in Product(vals) <==> IsChoice(vals, combo)
  {
    if vals != [] {
      if |combo| > 0 {
        ProductMembers(vals[1..], combo[1..]);
        ExpandMembers(vals[0], Product(vals[1..]), combo);
        if IsChoice(vals, combo) {
          assert IsChoice(vals[1..], combo[1..]) by {
            forall k | 0 <= k < |vals| - 1 ensures combo[1..][k] in vals[1..][k] {
              assert combo[k + 1] in vals[k + 1];
            }
          }
        }
        if combo in Product(vals) {
          forall k | 0 <= k < |vals| ensures combo[k] in vals[k] {
            if k > 0 {
              assert combo[1..][k - 1] in vals[1..][k - 1];
            }
          }
        }
      } else {
        ExpandMembers(vals[0], Product(vals[1..]), combo);
      }
    }
  }

  lemma {:induction false} ExpandSnoc(first: seq<Val>, v: Val, rest: seq<seq<Val>>)
    ensures Expand(first + [v], rest) == Expand(first, rest) + PrefixAll([v], rest)
  {
    if first == [] {
      assert [v][1..] == [];
    } else {
      assert (first + [v])[1..] == first[1..] + [v];
      ExpandSnoc(first[1..], v, rest);
    }
  }

  lemma PrefixAllAppend(acc: seq<Val>, xs: seq<seq<Val>>, ys: seq<seq<Val>>)
    ensures PrefixAll(acc, xs + ys) == PrefixAll(acc, xs) + PrefixAll(acc, ys)
  {
  }

  lemma PrefixAllNested(acc: seq<Val>, v: Val, rest: seq<seq<Val>>)
    ensures PrefixAll(acc + [v], rest) == PrefixAll(acc, PrefixAll([v], rest))
  {
    forall k | 0 <= k < |rest| ensures (acc + [v]) + rest[k] == acc + ([v] + rest[k]) {
    }
  }

  /** One pass of the enumeration's loop: the completions of acc with the
      value xs[k] follow those with the values before it. */
  lemma DfsStep(combos: seq<seq<Val>>, acc: seq<Val>, xs: seq<Val>, k: nat, rest: seq<seq<Val>>)
    requires k < |xs|
    ensures combos + PrefixAll(acc, Expand(xs[..k], rest)) + PrefixAll(acc + [xs[k]], rest)
         == combos + PrefixAll(acc, Expand(xs[..k + 1], rest))
  {
    PrefixAllNested(acc, xs[k], rest);
    ExpandSnoc(xs[..k], xs[k], rest);
    assert xs[..k + 1] == xs[..k] + [xs[k]];
    PrefixAllAppend(acc, Expand(xs[..k], rest), PrefixAll([xs[k]], rest));
  }

  /** The depth-first enumeration: extends the combinations found so far by
      every completion of `acc` with values of the dice from idx on. */
  method Dfs(vals: seq<seq<Val>>, idx: nat, acc: seq<Val>, combos: seq<seq<Val>>)
    returns (combos': seq<seq<Val>>)
    requires idx <= |vals|
    ensures combos' == combos + PrefixAll(acc, Product(vals[idx..]))
    decreases |vals| - idx
  {
    if idx == |vals| {
      assert vals[idx..] == [];
      assert acc + [] == acc;
      combos' := combos + [acc];
      return;
    }
    var xs := vals[idx];
    var rest := Product(vals[idx + 1..]);
    assert vals[idx..][1..] == vals[idx + 1..];
    combos' := combos;
    for k := 0 to |xs|
      invariant combos' == combos + PrefixAll(acc, Expand(xs[..k], rest))
    {
      combos' := Dfs(vals, idx + 1, acc + [xs[k]], combos');
      DfsStep(combos, acc, xs, k, rest);
    }
    assert xs[..|xs|] == xs;
  }

  // ----- the options of one combination -----

  /** Where an option comes from: the first die, the second die, or their sum. */
  datatype Source = Die1 | Die2 | Sum

  /** A building option: the building, its source, and the population the
      other die adds (0 for a sum). */
  datatype BuildOption = BuildOption(code: Code, source: Source, popGain: int)

  function First(combo: seq<Val>): Val { if |combo| > 0 then combo[0] else None }

  function Second(combo: seq<Val>): Val { if |combo| > 1 then combo[1] else None }

  /** The population a value adds: the number, or 0 for nothing. */
  function GainOf(v: Val): int { if v.Some? then v.value else 0 }

  predicate HasNumber(combo: seq<Val>) {
    exists k :: 0 <= k < |combo| && combo[k].Some?
  }

  /** The options one combination offers, in the order die 1, die 2, sum. */
  function ComboOptions(combo: seq<Val>): seq<BuildOption> {
    var a, b := First(combo), Second(combo);
    (if a.Some? && CodeOfValue(a.value).Some? then [BuildOption(CodeOfValue(a.value).value, Die1, GainOf(b))] else [])
    + (if b.Some? && CodeOfValue(b.value).Some? && |combo| > 1 then [BuildOption(CodeOfValue(b.value).value, Die2, GainOf(a))] else [])
    + (if a.Some? && b.Some? && CodeOfValue(a.value + b.value).Some? then [BuildOption(CodeOfValue(a.value + b.value).value, Sum, 0)] else [])
  }

  /** Appends the options not yet present, keeping the first occurrence. */
  function AddNew(opts: seq<BuildOption>, more: seq<BuildOption>): seq<BuildOption>
    decreases |more|
  {
    if more == [] then opts
    else AddNew(if more[0] in opts then opts else opts + [more[0]], more[1..])
  }

  /** The options of every combination holding some number, each once, in
      the order they first appear. */
  function OptionsOf(combos: seq<seq<Val>>, opts: seq<BuildOption>): seq<BuildOption>
    decreases |combos|
  {
    if combos == [] then opts
    else OptionsOf(combos[1..], if HasNumber(combos[0]) then AddNew(opts, ComboOptions(combos[0])) else opts)
  }

  predicate Distinct(opts: seq<BuildOption>) {
    forall i, j :: 0 <= i < j < |opts| ==> opts[i] != opts[j]
  }

  lemma {:induction false} AddNewMembers(opts: seq<BuildOption>, more: seq<BuildOption>)
    ensures forall o :: o in AddNew(opts, more) <==> o in opts || o in more
    ensures Distinct(opts) ==> Distinct(AddNew(opts, more))
    decreases |more|
  {
    if more != [] {
      var next := if more[0] in opts then opts else opts + [more[0]];
      AddNewMembers(next, more[1..]);
      assert forall o :: o in more <==> o == more[0] || o in more[1..];
    }
  }

  lemma {:induction false} OptionsOfMembers(combos: seq<seq<Val>>, opts: seq<BuildOption>)
    ensures forall o :: o in OptionsOf(combos, opts) <==>
      o in opts || exists k :: 0 <= k < |combos| && HasNumber(combos[k]) && o in ComboOptions(combos[k])
    ensures Distinct(opts) ==> Distinct(OptionsOf(combos, opts))
    decreases |combos|
  {
    if combos != [] {
      var next := if HasNumber(combos[0]) then AddNew(opts, ComboOptions(combos[0])) else opts;
      AddNewMembers(opts, ComboOptions(combos[0]));
      OptionsOfMembers(combos[1..], next);
      forall o | o in OptionsOf(combos, opts)
        ensures o in opts || exists k :: 0 <= k < |combos| && HasNumber(combos[k]) && o in ComboOptions(combos[k])
      {
        if o !in next {
          var k :| 0 <= k < |combos[1..]| && HasNumber(combos[1..][k]) && o in ComboOptions(combos[1..][k]);
          assert combos[k + 1] == combos[1..][k];
        }
      }
      forall o | exists k :: 0 <= k < |combos| && HasNumber(combos[k]) && o in ComboOptions(combos[k])
        ensures o in OptionsOf(combos, opts)
      {
        var k :| 0 <= k < |combos| && HasNumber(combos[k]) && o in ComboOptions(combos[k]);
        if k > 0 {
          assert combos[1..][k - 1] == combos[k];
        }
      }
    }
  }

  // ----- what the dice offer, stated directly -----

  /** g is a population gain die k can give: one of its values, or 0 when
      the die is missing or has no value. */
  ghost predicate GainFrom(dice: seq<Die>, k: nat, g: int) {
    if k < |dice| && PossibleValues(dice[k]) != [] then g in PossibleValues(dice[k]) else g == 0
  }

  /** The option is offered by the dice: the first die shows the building's
      number and the second gives the gain, or the other way round, or the
      two dice's values add up to the building's number (no gain). */
  ghost predicate Offered(dice: seq<Die>, o: BuildOption) {
    match o.source
    case Die1 => |dice| >= 1 && ValueOfCode(o.code) in PossibleValues(dice[0]) && GainFrom(dice, 1, o.popGain)
    case Die2 => |dice| >= 2 && ValueOfCode(o.code) in PossibleValues(dice[1]) && GainFrom(dice, 0, o.popGain)
    case Sum => (|dice| >= 2 && o.popGain == 0 &&
      exists a, b :: a in PossibleValues(dice[0]) && b in PossibleValues(dice[1]) && a + b == ValueOfCode(o.code))
  }

  /** The options of one combination, stated one source at a time. */
  lemma ComboOptionsMembers(combo: seq<Val>, o: BuildOption)
    ensures o in ComboOptions(combo) <==>
      match o.source
      case Die1 => First(combo).Some? && CodeOfValue(First(combo).value) == Some(o.code) && o.popGain == GainOf(Second(combo))
      case Die2 => (|combo| > 1 && Second(combo).Some? && CodeOfValue(Second(combo).value) == Some(o.code)
        && o.popGain == GainOf(First(combo)))
      case Sum => (First(combo).Some? && Second(combo).Some? && o.popGain == 0 &&
        CodeOfValue(First(combo).value + Second(combo).value) == Some(o.code))
  {
  }

  /** A die's chosen value gives the gain it stands for. */
  lemma ChosenGain(dice: seq<Die>, k: nat, v: Val)
    requires k < |dice| && v in ValuesForBuild(dice[k])
    ensures GainFrom(dice, k, GainOf(v))
  {
  }

  /** An option of a choice of values is offered by the dice. */
  lemma ChoiceOptionsOffered(dice: seq<Die>, combo: seq<Val>, o: BuildOption)
    requires IsChoice(ValuesPerDie(dice), combo)
    requires o in ComboOptions(combo)
    ensures Offered(dice, o)
  {
    ComboOptionsMembers(combo, o);
    if |combo| > 0 {
      assert combo[0] in ValuesForBuild(dice[0]);
      ChosenGain(dice, 0, combo[0]);
    }
    if |combo| > 1 {
      assert combo[1] in ValuesForBuild(dice[1]);
      ChosenGain(dice, 1, combo[1]);
    }
    CodeValueRoundTrip(o.code, 0);
    match o.source
    case Die1 =>
      CodeValueRoundTrip(o.code, combo[0].value);
    case Die2 =>
      CodeValueRoundTrip(o.code, combo[1].value);
    case Sum =>
      var a, b := combo[0].value, combo[1].value;
      CodeValueRoundTrip(o.code, a + b);
      assert a in PossibleValues(dice[0]) && b in PossibleValues(dice[1]);
  }

  /** A choice of one value per die with the first two values given. */
  function ChoiceWith(dice: seq<Die>, x0: Val, x1: Val): (combo: seq<Val>)
    ensures |combo| == |dice|
  {
    seq(|dice|, k requires 0 <= k < |dice| =>
      if k == 0 then x0 else if k == 1 then x1 else ValuesForBuild(dice[k])[0])
  }

  /** The value a die contributes when it is to give gain g. */
  function GainValue(dice: seq<Die>, k: nat, g: int): Val {
    if k < |dice| && PossibleValues(dice[k]) != [] then Some(g) else None
  }

  lemma GainValueChosen(dice: seq<Die>, k: nat, g: int)
    requires k < |dice| && GainFrom(dice, k, g)
    ensures GainValue(dice, k, g) in ValuesForBuild(dice[k])
    ensures GainOf(GainValue(dice, k, g)) == g
  {
  }

  /** Every offered option comes from some choice of values holding a number. */
  lemma OfferedHasChoice(dice: seq<Die>, o: BuildOption) returns (combo: seq<Val>)
    requires Offered(dice, o)
    ensures IsChoice(ValuesPerDie(dice), combo) && HasNumber(combo) && o in ComboOptions(combo)
  {
    var n := ValueOfCode(o.code);
    CodeValueRoundTrip(o.code, n);
    match o.source
    case Die1 =>
      var x1 := GainValue(dice, 1, o.popGain);
      if |dice| > 1 {
        GainValueChosen(dice, 1, o.popGain);
      }
      combo := ChoiceWith(dice, Some(n), x1);
      assert combo[0] == Some(n);
      assert HasNumber(combo);
      assert First(combo) == Some(n);
      assert GainOf(Second(combo)) == o.popGain;
      assert ComboOptions(combo)[0] == o;
    case Die2 =>
      var x0 := GainValue(dice, 0, o.popGain);
      GainValueChosen(dice, 0, o.popGain);
      combo := ChoiceWith(dice, x0, Some(n));
      assert combo[1] == Some(n);
      assert HasNumber(combo);
      assert GainOf(First(combo)) == o.popGain;
      assert o in ComboOptions(combo);
    case Sum =>
      var a, b :| a in PossibleValues(dice[0]) && b in PossibleValues(dice[1]) && a + b == n;
      combo := ChoiceWith(dice, Some(a), Some(b));
      assert combo[0] == Some(a) && combo[1] == Some(b);
      assert HasNumber(combo);
      assert o in ComboOptions(combo);
  }

  /** The options the build dice offer: every option of every choice of one
      value per die that holds some number, each once, in the order they
      first appear. An option is offered exactly when its building's number
      shows on one die (the other die, if it has a value, giving the gain)
      or is the sum of the two dice's values. */
  method BuildingOptionsFromDice(buildDice: seq<Die>) returns (opts: seq<BuildOption>)
    ensures opts == OptionsOf(Product(ValuesPerDie(buildDice)), [])
    ensures Distinct(opts)
    ensures forall o :: o in opts <==> Offered(buildDice, o)
  {
    var vals := ValuesPerDie(buildDice);
    var combos := Dfs(vals, 0, [], []);
    EnumerationComplete(vals, combos);
    opts := [];
    for k := 0 to |combos|
      invariant OptionsOf(combos[k..], opts) == OptionsOf(combos, [])
    {
      assert combos[k..][1..] == combos[k + 1..];
      if HasNumber(combos[k]) {
        opts := AddNewOptions(opts, ComboOptions(combos[k]));
      }
    }
    assert combos[|combos|..] == [];
    OptionsOfMembers(combos, []);
    forall o ensures o in opts <==> Offered(buildDice, o) {
      OptionOffered(buildDice, o);
    }
  }

  lemma EnumerationComplete(vals: seq<seq<Val>>, combos: seq<seq<Val>>)
    requires combos == [] + PrefixAll([], Product(vals[0..]))
    ensures combos == Product(vals)
  {
    assert vals[0..] == vals;
    var all := Product(vals);
    forall k | 0 <= k < |all| ensures combos[k] == all[k] {
      assert [] + all[k] == all[k];
    }
  }

  /** Appends, in order, the options not yet collected. */
  method AddNewOptions(opts: seq<BuildOption>, more: seq<BuildOption>) returns (opts': seq<BuildOption>)
    ensures opts' == AddNew(opts, more)
  {
    opts' := opts;
    for m := 0 to |more|
      invariant AddNew(opts', more[m..]) == AddNew(opts, more)
    {
      assert more[m..][1..] == more[m + 1..];
      if more[m] !in opts' {
        opts' := opts' + [more[m]];
      }
    }
    assert more[|more|..] == [];
  }

  /** The collected options are exactly the offered ones. */
  lemma OptionOffered(dice: seq<Die>, o: BuildOption)
    ensures o in OptionsOf(Product(ValuesPerDie(dice)), []) <==> Offered(dice, o)
  {
    var combos := Product(ValuesPerDie(dice));
    OptionsOfMembers(combos, []);
    if o in OptionsOf(combos, []) {
      var k :| 0 <= k < |combos| && HasNumber(combos[k]) && o in ComboOptions(combos[k]);
      ProductMembers(ValuesPerDie(dice), combos[k]);
      ChoiceOptionsOffered(dice, combos[k], o);
    }
    if Offered(dice, o) {
      var combo := OfferedHasChoice(dice, o);
      ProductMembers(ValuesPerDie(dice), combo);
      var k :| 0 <= k < |combos| && combos[k] == combo;
    }
  }

  /** Dice for plain build values: a value, or nothing. */
  function DiceOfValues(vals: seq<Val>): (dice: seq<Die>)
    ensures |dice| == |vals|
    ensures forall k :: 0 <= k < |vals| ==>
      PossibleValues(dice[k]) == (if vals[k].Some? then [vals[k].value] else [])
  {
    seq(|vals|, k requires 0 <= k < |vals| => Die("", Single, vals[k]))
  }

  /** The options of plain build values. */
  method BuildingOptions(buildVals: seq<Val>) returns (opts: seq<BuildOption>)
    ensures Distinct(opts)
    ensures forall o :: o in opts <==> Offered(DiceOfValues(buildVals), o)
  {
    opts := BuildingOptionsFromDice(DiceOfValues(buildVals));
  }

  /** Values 4 and 1 offer a Windmill and a Cottage from the dice and a
      Market from their sum. */
  lemma FourAndOne()
    ensures Offered(DiceOfValues([Some(4), Some(1)]), BuildOption(W, Die1, 1))
    ensures Offered(DiceOfValues([Some(4), Some(1)]), BuildOption(C, Die2, 4))
    ensures Offered(DiceOfValues([Some(4), Some(1)]), BuildOption(M, Sum, 0))
  {
    var dice := DiceOfValues([Some(4), Some(1)]);
    assert PossibleValues(dice[0]) == [4] && PossibleValues(dice[1]) == [1];
  }

  // ----- the board's limits -----

  /** Townhall, University and Almshouse may be built once per game. */
  predicate OncePerGame(code: Code) {
    code == T || code == U || code == A
  }

  /** The once-per-game buildings on the cells. */
  function OncePerGameIn(cells: seq<Cell>): set<Code> {
    if cells == [] then {}
    else
      (if cells[0].building.Some? && OncePerGame(cells[0].building.value) then {cells[0].building.value} else {})
      + OncePerGameIn(cells[1..])
  }

  /** The labels of the guilds on the cells. */
  function GuildLabelsIn(cells: seq<Cell>): set<Label> {
    if cells == [] then {}
    else
      (if HasCode(cells[0], G) && cells[0].buildingLabel.Some? then {cells[0].buildingLabel.value} else {})
      + GuildLabelsIn(cells[1..])
  }

  /** An option may be offered given what stands: a once-per-game building
      not yet built, a Guild while fewer than two guilds and fewer than four
      guild types stand, anything else always. */
  predicate AllowedGiven(code: Code, builtAdvanced: set<Code>, guildCount: int, guildTypes: set<Label>) {
    if OncePerGame(code) then code !in builtAdvanced
    else if code == G then (if 2 - guildCount < 0 then 0 else 2 - guildCount) > 0 && |guildTypes| < 4
    else true
  }

  /** An option may be offered on this board. */
  predicate AllowedOnBoard(code: Code, board: Grid<Cell>) {
    AllowedGiven(code, OncePerGameIn(Flat(board)), CountCode(Flat(board), G), GuildLabelsIn(Flat(board)))
  }

  /** The options, in order, that what stands allows. */
  function FilterGiven(options: seq<BuildOption>, builtAdvanced: set<Code>, guildCount: int, guildTypes: set<Label>)
    : (kept: seq<BuildOption>)
    ensures |kept| <= |options|
    ensures forall o :: o in kept <==> o in options && AllowedGiven(o.code, builtAdvanced, guildCount, guildTypes)
  {
    if options == [] then []
    else
      (if AllowedGiven(options[0].code, builtAdvanced, guildCount, guildTypes) then [options[0]] else [])
      + FilterGiven(options[1..], builtAdvanced, guildCount, guildTypes)
  }

  /** The options, in order, that the board allows. */
  function FilterAllowed(options: seq<BuildOption>, board: Grid<Cell>): (kept: seq<BuildOption>)
    ensures |kept| <= |options|
    ensures forall o :: o in kept <==> o in options && AllowedOnBoard(o.code, board)
  {
    FilterGiven(options, OncePerGameIn(Flat(board)), CountCode(Flat(board), G), GuildLabelsIn(Flat(board)))
  }

  lemma {:induction false} OncePerGameInMembers(cells: seq<Cell>, code: Code)
    ensures code in OncePerGameIn(cells) <==> OncePerGame(code) && CountCode(cells, code) > 0
  {
    if cells != [] {
      OncePerGameInMembers(cells[1..], code);
    }
  }

  /** Every guild type counted belongs to a guild, so there are never more
      types than guilds. */
  lemma {:induction false} GuildLabelsBounded(cells: seq<Cell>)
    ensures |GuildLabelsIn(cells)| <= CountCode(cells, G)
  {
    if cells != [] {
      GuildLabelsBounded(cells[1..]);
    }
  }

  /** With at most two guilds there are at most two types, so the cap of
      four types never removes a Guild option on its own. */
  lemma GuildAllowedByCount(board: Grid<Cell>)
    ensures AllowedOnBoard(G, board) <==> CountCode(Flat(board), G) < 2
    ensures forall code :: OncePerGame(code) ==>
      (AllowedOnBoard(code, board) <==> CountCode(Flat(board), code) == 0)
  {
    forall code | OncePerGame(code) {
      OncePerGameInMembers(Flat(board), code);
    }
    GuildLabelsBounded(Flat(board));
  }

  /** Collects, over the cells, the once-per-game buildings, the guild
      types and the number of guilds. */
  method ScanBoard(cells: seq<Cell>) returns (builtAdvanced: set<Code>, builtGuildTypes: set<Label>, guildCount: nat)
    ensures builtAdvanced == OncePerGameIn(cells)
    ensures builtGuildTypes == GuildLabelsIn(cells)
    ensures guildCount == CountCode(cells, G)
  {
    builtAdvanced, builtGuildTypes, guildCount := {}, {}, 0;
    for k := 0 to |cells|
      invariant builtAdvanced + OncePerGameIn(cells[k..]) == OncePerGameIn(cells)
      invariant builtGuildTypes + GuildLabelsIn(cells[k..]) == GuildLabelsIn(cells)
      invariant guildCount + CountCode(cells[k..], G) == CountCode(cells, G)
    {
      assert cells[k..][1..] == cells[k + 1..];
      var cell := cells[k];
      if cell.building.Some? && OncePerGame(cell.building.value) {
        builtAdvanced := builtAdvanced + {cell.building.value};
      }
      if cell.building == Some(G) {
        guildCount := guildCount + 1;
        if cell.buildingLabel.Some? {
          builtGuildTypes := builtGuildTypes + {cell.buildingLabel.value};
        }
      }
    }
    assert cells[|cells|..] == [];
  }

  /** Keeps, in order, the options the board still allows: a once-per-game
      building only while not on the board, a Guild only while fewer than
      two guilds (and fewer than four guild types) stand. */
  method RestrictBuildOptionsForBoard(options: seq<BuildOption>, board: Grid<Cell>)
    returns (kept: seq<BuildOption>)
    ensures kept == FilterAllowed(options, board)
    ensures forall o :: o in kept <==> o in options && AllowedOnBoard(o.code, board)
  {
    var builtAdvanced, builtGuildTypes, guildCount := ScanBoard(Flat(board));
    kept := KeepAllowed(options, builtAdvanced, guildCount, builtGuildTypes);
  }

  /** The filtering pass, given what the scan of the board found. */
  method KeepAllowed(options: seq<BuildOption>, builtAdvanced: set<Code>, guildCount: int, builtGuildTypes: set<Label>)
    returns (kept: seq<BuildOption>)
    ensures kept == FilterGiven(options, builtAdvanced, guildCount, builtGuildTypes)
  {
    kept := [];
    for k := 0 to |options|
      invariant kept + FilterGiven(options[k..], builtAdvanced, guildCount, builtGuildTypes)
        == FilterGiven(options, builtAdvanced, guildCount, builtGuildTypes)
    {
      KeepStep(options, k, kept, builtAdvanced, guildCount, builtGuildTypes);
      if AllowedGiven(options[k].code, builtAdvanced, guildCount, builtGuildTypes) {
        kept := kept + [options[k]];
      }
    }
    assert options[|options|..] == [];
  }

  /** Deciding options[k] keeps the filter's result split between what is
      kept so far and the filter of the rest. */
  lemma KeepStep(options: seq<BuildOption>, k: nat, kept: seq<BuildOption>,
                 builtAdvanced: set<Code>, guildCount: int, guildTypes: set<Label>)
    requires k < |options|
    requires kept + FilterGiven(options[k..], builtAdvanced, guildCount, guildTypes)
      == FilterGiven(options, builtAdvanced, guildCount, guildTypes)
    ensures (if AllowedGiven(options[k].code, builtAdvanced, guildCount, guildTypes) then kept + [options[k]] else kept)
      + FilterGiven(options[k + 1..], builtAdvanced, guildCount, guildTypes)
      == FilterGiven(options, builtAdvanced, guildCount, guildTypes)
  {
    assert options[k..][1..] == options[k + 1..];
    var rest := FilterGiven(options[k + 1..], builtAdvanced, guildCount, guildTypes);
    if AllowedGiven(options[k].code, builtAdvanced, guildCount, guildTypes) {
      assert FilterGiven(options[k..], builtAdvanced, guildCount, guildTypes) == [options[k]] + rest;
      assert (kept + [options[k]]) + rest == kept + ([options[k]] + rest);
    } else {
      assert FilterGiven(options[k..], builtAdvanced, guildCount, guildTypes) == rest;
    }
  }
}
