/**
  The hero catalogue and the choice of a hero for a role (internal/game/hero/catalog.go).
  Heroes are numbered in the alphabetical order of their ids.
*/
module Heroes {
  import opened Prelude
  import Tickets

  const ARCWEAVER: Id := 1
  const CHRONOWARDEN: Id := 2
  const EMBERLORD: Id := 3
  const IRONWALL: Id := 4
  const LIFEBLOOM: Id := 5
  const PATHFINDER: Id := 6
  const SHADOWSTEP: Id := 7
  const STARBLADE: Id := 8
  const STORMGUARD: Id := 9
  const WINDSHOT: Id := 10

  // The heroes of a role, in alphabetical order.
  function HeroesOf(role: Tickets.Role): (r: seq<Id>)
    ensures |r| == 2 && NO_ID < r[0] < r[1]
  {
    match role
    case Vanguard => [IRONWALL, STORMGUARD]
    case Roamer => [PATHFINDER, SHADOWSTEP]
    case Core => [EMBERLORD, STARBLADE]
    case Ranged => [ARCWEAVER, WINDSHOT]
    case Support => [CHRONOWARDEN, LIFEBLOOM]
  }

  predicate PlaysRole(hero: Id, role: Tickets.Role) {
    hero in HeroesOf(role)
  }

  // What a map without the hero answers in Go.
  function Proficiency(proficiency: map<Id, real>, hero: Id): real {
    if hero in proficiency then proficiency[hero] else 0.0
  }

  const UNKNOWN_PROFICIENCY := 50.0

  // The hero has the role and the highest proficiency in it, and is the first such hero.
  ghost predicate IsBest(proficiency: map<Id, real>, role: Tickets.Role, hero: Id) {
    && PlaysRole(hero, role)
    && forall other :: PlaysRole(other, role) ==>
         || Proficiency(proficiency, other) < Proficiency(proficiency, hero)
         || (Proficiency(proficiency, other) == Proficiency(proficiency, hero) && hero <= other)
  }

  function BestForRole(proficiency: map<Id, real>, role: Tickets.Role): (r: (Id, real))
    ensures IsBest(proficiency, role, r.0)
    ensures r.1 == if |proficiency| == 0 then UNKNOWN_PROFICIENCY else Proficiency(proficiency, r.0)
  {
    var heroes := HeroesOf(role);
    if |proficiency| == 0 then (heroes[0], UNKNOWN_PROFICIENCY)
    else if Proficiency(proficiency, heroes[1]) > Proficiency(proficiency, heroes[0]) then
      (heroes[1], Proficiency(proficiency, heroes[1]))
    else (heroes[0], Proficiency(proficiency, heroes[0]))
  }

  /** Only one hero is the best for a role. */
  lemma BestIsUnique(proficiency: map<Id, real>, role: Tickets.Role, a: Id, b: Id)
    requires IsBest(proficiency, role, a) && IsBest(proficiency, role, b)
    ensures a == b
  {
    assert PlaysRole(a, role) && PlaysRole(b, role);
  }

  /** The loop over the candidates of the role finds it. */
  method FindBest(proficiency: map<Id, real>, role: Tickets.Role) returns (best: Id, score: real)
    ensures (best, score) == BestForRole(proficiency, role)
  {
    var candidates := HeroesOf(role);
    best, score := candidates[0], UNKNOWN_PROFICIENCY;
    if |proficiency| > 0 {
      score := Proficiency(proficiency, best);
      for i := 1 to |candidates|
        invariant best in candidates[..i] && score == Proficiency(proficiency, best)
        invariant forall j :: 0 <= j < i ==>
                    || Proficiency(proficiency, candidates[j]) < score
                    || (Proficiency(proficiency, candidates[j]) == score && best <= candidates[j])
      {
        var other := Proficiency(proficiency, candidates[i]);
        if other > score {
          best, score := candidates[i], other;
        }
      }
      BestIsUnique(proficiency, role, best, BestForRole(proficiency, role).0);
    }
  }
}
