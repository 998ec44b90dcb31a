/** Which canonical key a mistyped one was probably meant to be (frontend/src/canonicalHints.ts: suggestCanonicalKey). */
module CanonicalHints {
  import opened Options
  import opened Sequences
  import opened Sorting
  import opened Text
  import opened EditDistance

  predicate IsAlphanumeric(c: char) {
    'a' <= c <= 'z' || '0' <= c <= '9'
  }

  /** Case and separators carry no meaning. */
  function Flatten(key: string): string {
    Filter(Lowercase(key), IsAlphanumeric)
  }

  /** What follows the first dot. */
  function Unqualified(key: string): string {
    if key == "" then "" else if key[0] == '.' then key[1..] else Unqualified(key[1..])
  }

  function Tolerance(flat: string): nat {
    if |flat| < 4 then 0 else if |flat| <= 6 then 1 else 2
  }

  function Nearness(flat: string, key: string): nat {
    var whole, bare := Distance(flat, Flatten(key)), Distance(flat, Flatten(Unqualified(key)));
    if whole <= bare then whole else bare
  }

  predicate Spells(flat: string, key: string) {
    Flatten(key) == flat
  }

  predicate SpellsBare(flat: string, key: string) {
    Flatten(Unqualified(key)) == flat
  }

  predicate Nearer(flat: string, a: string, b: string) {
    Nearness(flat, a) < Nearness(flat, b) || (Nearness(flat, a) == Nearness(flat, b) && Precedes(a, b))
  }

  /** The key comes first by name among those that qualify. */
  ghost predicate IsFirst(keys: set<string>, qualifies: string -> bool, key: string) {
    key in keys && qualifies(key) && forall other :: other in keys && qualifies(other) ==> other == key || Precedes(key, other)
  }

  /** The key is the nearest within the limit, and of equally near ones the first by name. */
  ghost predicate IsNearest(keys: set<string>, flat: string, limit: nat, key: string) {
    && key in keys && Nearness(flat, key) <= limit
    && forall other :: other in keys && Nearness(flat, other) <= limit ==> other == key || Nearer(flat, key, other)
  }

  ghost predicate NoneQualifies(keys: set<string>, qualifies: string -> bool) {
    forall key :: key in keys ==> !qualifies(key)
  }

  /** The three stages, each asked only when those before it found nothing. */
  ghost predicate IsFuzzySuggestion(keys: set<string>, flat: string, suggestion: Option<string>) {
    var limit := Tolerance(flat);
    match suggestion
    case Some(key) => limit > 0 && IsNearest(keys, flat, limit, key)
    case None => limit == 0 || forall key :: key in keys ==> Nearness(flat, key) > limit
  }

  ghost predicate IsSuggestion(candidate: string, keys: set<string>, suggestion: Option<string>) {
    var typed := Stripped(candidate);
    var flat := Flatten(typed);
    var spells, bare := (key: string) => Spells(flat, key), (key: string) => SpellsBare(flat, key);
    if typed == "" || "position." <= typed || typed in keys || flat == "" then suggestion == None
    else if !NoneQualifies(keys, spells) then suggestion.Some? && IsFirst(keys, spells, suggestion.value)
    else if !NoneQualifies(keys, bare) then suggestion.Some? && IsFirst(keys, bare, suggestion.value)
    else IsFuzzySuggestion(keys, flat, suggestion)
  }

  function KeySet(canonical: seq<string>): set<string> {
    set key | key in canonical
  }

  ghost predicate IsAlphabetical(ordered: seq<string>, keys: set<string>) {
    && KeySet(ordered) == keys
    && forall i, j :: 0 <= i < j < |ordered| ==> ordered[i] == ordered[j] || Precedes(ordered[i], ordered[j])
  }

  lemma SortedIsAlphabetical(canonical: seq<string>)
    ensures IsAlphabetical(Sorted(canonical, Precedes), KeySet(canonical))
  {
    PrecedesIsOrder();
    SortedIsInOrder(canonical, Precedes);
    var ordered := Sorted(canonical, Precedes);
    hide Sorted, Precedes;
    forall key ensures key in ordered <==> key in canonical {
      assert key in ordered <==> key in multiset(ordered);
      assert key in canonical <==> key in multiset(canonical);
    }
    forall i, j | 0 <= i < j < |ordered| ensures ordered[i] == ordered[j] || Precedes(ordered[i], ordered[j]) {
      PrecedesIsTotal(ordered[i], ordered[j]);
    }
  }

  /** Array.find over the alphabetical list. */
  method FindFirst(ordered: seq<string>, qualifies: string -> bool, ghost keys: set<string>) returns (found: Option<string>)
    requires IsAlphabetical(ordered, keys)
    ensures match found
      case Some(key) => IsFirst(keys, qualifies, key) && !NoneQualifies(keys, qualifies)
      case None => NoneQualifies(keys, qualifies)
  {
    hide Precedes;
    for i := 0 to |ordered|
      invariant forall j :: 0 <= j < i ==> !qualifies(ordered[j])
    {
      if qualifies(ordered[i]) {
        assert ordered[i] in KeySet(ordered);
        forall other | other in keys && qualifies(other) ensures other == ordered[i] || Precedes(ordered[i], other) {
          assert other in KeySet(ordered);
          var j :| 0 <= j < |ordered| && ordered[j] == other;
        }
        return Some(ordered[i]);
      }
    }
    forall key | key in keys ensures !qualifies(key) {
      assert key in KeySet(ordered);
    }
    found := None;
  }

  ghost predicate IsNearestSoFar(ordered: seq<string>, flat: string, limit: nat, n: nat, best: Option<(string, nat)>)
    requires n <= |ordered|
  {
    match best
    case None => forall j :: 0 <= j < n ==> Nearness(flat, ordered[j]) > limit
    case Some(pair) =>
      && pair.0 in ordered[..n] && pair.1 == Nearness(flat, pair.0) <= limit
      && forall j :: 0 <= j < n && Nearness(flat, ordered[j]) <= limit ==> ordered[j] == pair.0 || Nearer(flat, pair.0, ordered[j])
  }

  lemma NearestNext(ordered: seq<string>, flat: string, limit: nat, n: nat, best: Option<(string, nat)>, keys: set<string>)
    requires n < |ordered| && IsAlphabetical(ordered, keys) && IsNearestSoFar(ordered, flat, limit, n, best)
    ensures var distance := Nearness(flat, ordered[n]);
      IsNearestSoFar(ordered, flat, limit, n + 1,
                     if distance <= limit && (best.None? || distance < best.value.1) then Some((ordered[n], distance)) else best)
  {
    hide Nearness, Precedes;
    assert ordered[..n + 1] == ordered[..n] + [ordered[n]];
    if best.Some? {
      var i :| 0 <= i < n && ordered[i] == best.value.0;
    }
  }

  lemma NearestOfAll(ordered: seq<string>, flat: string, limit: nat, best: Option<(string, nat)>, keys: set<string>)
    requires IsAlphabetical(ordered, keys) && IsNearestSoFar(ordered, flat, limit, |ordered|, best)
    ensures match best
      case Some(pair) => IsNearest(keys, flat, limit, pair.0)
      case None => forall key :: key in keys ==> Nearness(flat, key) > limit
  {
    hide Nearness, Precedes;
    forall key | key in keys ensures exists j :: 0 <= j < |ordered| && ordered[j] == key {
      assert key in KeySet(ordered);
    }
    if best.Some? {
      assert best.value.0 in KeySet(ordered);
    }
  }

  method SuggestCanonicalKey(candidate: string, canonical: seq<string>) returns (suggestion: Option<string>)
    ensures IsSuggestion(candidate, KeySet(canonical), suggestion)
  {
    var typed := Stripped(candidate);
    if typed == "" || "position." <= typed || typed in canonical {
      return None;
    }
    var flat := Flatten(typed);
    if flat == "" {
      return None;
    }
    ghost var keys := KeySet(canonical);
    var ordered := Sorted(canonical, Precedes);
    SortedIsAlphabetical(canonical);
    hide Sorted, Flatten, Precedes, Stripped, IsAlphabetical, IsFirst, IsNearest, Nearness, NoneQualifies, Unqualified, Distance;
    var spelled := FindFirst(ordered, (key: string) => Spells(flat, key), keys);
    if spelled.Some? {
      return spelled;
    }
    var bare := FindFirst(ordered, (key: string) => SpellsBare(flat, key), keys);
    if bare.Some? {
      return bare;
    }
    var limit := Tolerance(flat);
    if limit == 0 {
      return None;
    }
    suggestion := Nearest(ordered, flat, limit, keys);
  }

  method Nearest(ordered: seq<string>, flat: string, limit: nat, ghost keys: set<string>) returns (suggestion: Option<string>)
    requires IsAlphabetical(ordered, keys)
    ensures match suggestion
      case Some(key) => IsNearest(keys, flat, limit, key)
      case None => forall key :: key in keys ==> Nearness(flat, key) > limit
  {
    var best: Option<(string, nat)> := None;
    hide IsAlphabetical, IsNearest, Flatten, Unqualified, Distance, Precedes;
    for i := 0 to |ordered|
      invariant IsNearestSoFar(ordered, flat, limit, i, best)
    {
      var key := ordered[i];
      var whole := ComputeDistance(flat, Flatten(key));
      var bare := ComputeDistance(flat, Flatten(Unqualified(key)));
      var distance := if whole <= bare then whole else bare;
      NearestNext(ordered, flat, limit, i, best, keys);
      hide IsNearestSoFar;
      if distance <= limit && (best.None? || distance < best.value.1) {
        best := Some((key, distance));
      }
    }
    NearestOfAll(ordered, flat, limit, best, keys);
    suggestion := if best.Some? then Some(best.value.0) else None;
  }

  /** The suggestion depends on which keys are canonical, not on how they are listed: there is only one. */
  lemma SuggestionIsUnique(candidate: string, keys: set<string>, a: Option<string>, b: Option<string>)
    requires IsSuggestion(candidate, keys, a) && IsSuggestion(candidate, keys, b)
    ensures a == b
  {
    hide Precedes, Flatten, Stripped, Nearness, Unqualified, Spells, SpellsBare;
    if a.Some? && b.Some? {
      PrecedesIsTotal(a.value, b.value);
    }
  }

  /** A suggestion is canonical, never what was typed, and within two edits of it, if not the same but for case and separators. */
  lemma SuggestionIsClose(candidate: string, keys: set<string>, suggestion: string)
    requires IsSuggestion(candidate, keys, Some(suggestion))
    ensures suggestion in keys && suggestion != Stripped(candidate)
    ensures Nearness(Flatten(Stripped(candidate)), suggestion) <= 2
  {
    var flat := Flatten(Stripped(candidate));
    DistanceIsZeroIffEqual(flat, Flatten(suggestion));
    DistanceIsZeroIffEqual(flat, Flatten(Unqualified(suggestion)));
    hide Precedes, Flatten, Stripped, Distance, Unqualified;
  }

  // The suggestion in terms of the spellings.

  lemma FlattenAppend(a: string, b: string)
    ensures Flatten(a + b) == Flatten(a) + Flatten(b)
  {
    assert Lowercase(a + b) == Lowercase(a) + Lowercase(b);
    FilterAppend(Lowercase(a), Lowercase(b), IsAlphanumeric);
  }

  /** A small letter or a digit is kept, a capital is kept as a small letter, and anything else is dropped. */
  lemma FlattenOne(c: char)
    ensures 'a' <= c <= 'z' || '0' <= c <= '9' ==> Flatten([c]) == [c]
    ensures 'A' <= c <= 'Z' ==> Flatten([c]) == [((c as int) + 32) as char]
    ensures !('a' <= c <= 'z' || '0' <= c <= '9' || 'A' <= c <= 'Z') ==> Flatten([c]) == ""
  {
    assert Lowercase([c]) == [Lowered(c)];
    assert [Lowered(c)][..0] == [];
  }

  /** What is left of a name once its namespace is dropped. */
  lemma {:induction false} UnqualifiedIsTheRest(namespace: string, rest: string)
    requires '.' !in namespace
    ensures Unqualified(namespace + "." + rest) == rest
  {
    var key := namespace + "." + rest;
    if namespace == "" {
      assert key == ['.'] + rest;
    } else {
      assert key[1..] == namespace[1..] + "." + rest;
      UnqualifiedIsTheRest(namespace[1..], rest);
    }
  }

  lemma {:induction false} UnqualifiedWithoutDot(key: string)
    requires '.' !in key
    ensures Unqualified(key) == ""
  {
    if key != "" {
      UnqualifiedWithoutDot(key[1..]);
    }
  }

  /** How many edits a flattened spelling may be off: none under four characters, one up to six, then two. */
  predicate IsWithinReach(flat: string, key: string) {
    var distance, bare := Distance(flat, Flatten(key)), Distance(flat, Flatten(Unqualified(key)));
    |flat| >= 4 && (distance <= 1 || bare <= 1 || (|flat| >= 7 && (distance <= 2 || bare <= 2)))
  }

  /** Something typed that is no position target and not canonical itself. */
  predicate AsksForHint(typed: string, keys: set<string>) {
    typed != "" && !("position." <= typed) && typed !in keys && Flatten(typed) != ""
  }

  /**
   * A suggestion is made exactly when some canonical key has the same letters and digits, with or
   * without its namespace, or is within reach; and the one made has or is.
   */
  lemma SuggestedIff(candidate: string, keys: set<string>, suggestion: Option<string>)
    requires IsSuggestion(candidate, keys, suggestion)
    ensures var typed := Stripped(candidate); var flat := Flatten(typed);
      suggestion.Some? <==> AsksForHint(typed, keys) && exists key :: key in keys && Fits(flat, key)
    ensures suggestion.Some? ==> Fits(Flatten(Stripped(candidate)), suggestion.value)
  {
    hide Flatten, Stripped, Unqualified, Distance, Precedes;
    var flat := Flatten(Stripped(candidate));
    if AsksForHint(Stripped(candidate), keys) && suggestion.None? {
      forall key | key in keys ensures !Fits(flat, key) {
        assert !Spells(flat, key) && !SpellsBare(flat, key);
      }
    }
  }

  predicate Fits(flat: string, key: string) {
    Flatten(key) == flat || Flatten(Unqualified(key)) == flat || IsWithinReach(flat, key)
  }

  /** The same letters and digits go before the same without the namespace, and those before a near miss. */
  lemma StagesInOrder(candidate: string, keys: set<string>, suggestion: string, other: string)
    requires IsSuggestion(candidate, keys, Some(suggestion)) && other in keys
    ensures var flat := Flatten(Stripped(candidate));
      && (Flatten(other) == flat ==> Flatten(suggestion) == flat)
      && (Flatten(Unqualified(other)) == flat ==> Flatten(suggestion) == flat || Flatten(Unqualified(suggestion)) == flat)
      && (Flatten(suggestion) == flat && Flatten(other) == flat ==> suggestion == other || Precedes(suggestion, other))
  {
    hide Flatten, Stripped, Unqualified, Distance, Precedes;
    var flat := Flatten(Stripped(candidate));
    assert Spells(flat, other) <==> Flatten(other) == flat;
    assert SpellsBare(flat, other) <==> Flatten(Unqualified(other)) == flat;
  }

  /** Among near misses no key is nearer, whole or without its namespace, and of equally near ones none is before it by name. */
  lemma NearMissIsNearest(candidate: string, keys: set<string>, suggestion: string, other: string)
    requires IsSuggestion(candidate, keys, Some(suggestion)) && other in keys && other != suggestion
    requires var flat := Flatten(Stripped(candidate)); forall key :: key in keys ==> Flatten(key) != flat && Flatten(Unqualified(key)) != flat
    ensures var flat := Flatten(Stripped(candidate));
      var own, its := Distance(flat, Flatten(suggestion)), Distance(flat, Flatten(other));
      var ownBare, itsBare := Distance(flat, Flatten(Unqualified(suggestion))), Distance(flat, Flatten(Unqualified(other)));
      && (own <= its || ownBare <= its) && (own <= itsBare || ownBare <= itsBare)
      && (Precedes(suggestion, other) || ((own < its || ownBare < its) && (own < itsBare || ownBare < itsBare)))
  {
    hide Flatten, Stripped, Unqualified, Distance, Precedes;
    var flat := Flatten(Stripped(candidate));
    assert forall key :: key in keys ==> !Spells(flat, key) && !SpellsBare(flat, key);
    assert IsFuzzySuggestion(keys, flat, Some(suggestion));
    if Nearness(flat, other) <= Tolerance(flat) {
      assert Nearer(flat, suggestion, other);
    }
  }
}
