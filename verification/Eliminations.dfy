/** Round elimination: the side fewer players chose survives. */
module Eliminations {
  import opened Wrappers
  import opened ArenaTypes

  datatype Tally = Tally(heads: nat, tails: nat)

  function Votes(choices: seq<Choice>, c: Choice): nat {
    if choices == [] then 0
    else Votes(choices[..|choices| - 1], c) + (if choices[|choices| - 1] == c then 1 else 0)
  }

  /** Counts the revealed choices. */
  method TallyChoices(choices: seq<Choice>) returns (t: Tally)
    ensures t == Tally(Votes(choices, Heads), Votes(choices, Tails))
    ensures t.heads + t.tails == |choices|
  {
    var heads, tails := 0, 0;
    for i := 0 to |choices|
      invariant heads == Votes(choices[..i], Heads) && tails == Votes(choices[..i], Tails)
      invariant heads + tails == i
    {
      assert choices[..i + 1][..i] == choices[..i];
      match choices[i] {
        case Heads => heads := heads + 1;
        case Tails => tails := tails + 1;
      }
    }
    assert choices[..|choices|] == choices;
    t := Tally(heads, tails);
  }

  function SurvivingChoice(t: Tally): Option<Choice> {
    if t.heads == 0 && t.tails == 0 then None
    else if t.tails == 0 then Some(Heads)
    else if t.heads == 0 then Some(Tails)
    else if t.heads == t.tails then None
    else if t.heads < t.tails then Some(Heads)
    else Some(Tails)
  }

  predicate IsEliminated(c: Choice, t: Tally) {
    match SurvivingChoice(t)
    case Some(survivor) => c != survivor
    case None => false
  }

  /** How many votes a choice got. */
  function For(t: Tally, c: Choice): nat {
    if c == Heads then t.heads else t.tails
  }

  /**
    Minority wins: of a choice somebody made, its voters go out exactly when the other side has votes too, but
    fewer; so a tie or a unanimous round eliminates nobody, and a split never eliminates both sides.
   */
  lemma MinorityWins(t: Tally, c: Choice)
    requires For(t, c) > 0
    ensures var other := if c == Heads then Tails else Heads;
      IsEliminated(c, t) <==> 0 < For(t, other) < For(t, c)
  {
  }
}
