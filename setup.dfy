/**
 * The initial board (server/pktcgai/state.py): the shuffled deck is split into an active
 * Pokémon, a bench of up to three Basic Pokémon with one Energy each while Energies last,
 * a stadium, and the hand, prize, deck, discard and lost-zone piles of the remaining cards.
 * Both players get the same state.
 */
module Setup {
  import opened Wrappers
  import opened Text

  /** A card's `hp` field, as the card data gives it. */
  datatype HpField = HpNumber(n: int) | HpText(text: string)

  /** The part of a card's `info` dictionary the setup reads; copies of one card are equal values, as in Python. */
  datatype CardInfo = CardInfo(id: string, supertype: Option<string>, subtypes: seq<string>, hp: Option<HpField>)

  datatype Card = Card(info: CardInfo)

  datatype PokemonInPlay = PokemonInPlay(info: CardInfo, hp: int, attachedCards: Option<seq<Card>>)

  datatype PlayerState = PlayerState(
    active: Option<PokemonInPlay>,
    bench: seq<PokemonInPlay>,
    discard: seq<Card>,
    lostZone: seq<Card>,
    deck: seq<Card>,
    hand: seq<Card>,
    stadium: Option<Card>,
    prizeCards: seq<Card>)

  datatype BoardState = BoardState(playerOne: PlayerState, playerTwo: PlayerState)

  // ---------------------------------------------------------------------------
  // Card tests and `int(...)`

  /** The three kinds of card the setup looks for. */
  datatype Wanted = BasicPokemon | EnergyCard | StadiumTrainer

  predicate Wants(w: Wanted, c: Card)
  {
    match w
    case BasicPokemon => c.info.supertype == Some("Pokémon") && "Basic" in c.info.subtypes
    case EnergyCard => c.info.supertype == Some("Energy")
    case StadiumTrainer => c.info.supertype == Some("Trainer") && "Stadium" in c.info.subtypes
  }

  predicate AllDigits(s: string)
  {
    forall i :: 0 <= i < |s| ==> '0' <= s[i] <= '9'
  }

  /** The value of a string of decimal digits. */
  function DecimalValue(s: string): nat
    requires AllDigits(s)
  {
    if s == [] then 0 else 10 * DecimalValue(s[..|s| - 1]) + (s[|s| - 1] as int - '0' as int)
  }

  /** Python `int(s)` for a text: an optional sign and decimal digits; anything else raises. */
  function ParseInt(s: string): Result<int>
  {
    if |s| > 1 && (s[0] == '-' || s[0] == '+') && AllDigits(s[1..]) then
      Ok(if s[0] == '-' then -(DecimalValue(s[1..]) as int) else DecimalValue(s[1..]))
    else if |s| > 0 && AllDigits(s) then Ok(DecimalValue(s))
    else Err("invalid literal for int() with base 10: '" + s + "'")
  }

  /** `int(info.get('hp', 0))`. */
  function HpValue(hp: Option<HpField>): Result<int>
  {
    match hp
    case None => Ok(0)
    case Some(HpNumber(n)) => Ok(n)
    case Some(HpText(t)) => ParseInt(t)
  }

  lemma {:induction false} DecimalRoundTrip(n: nat)
    ensures AllDigits(NatText(n)) && DecimalValue(NatText(n)) == n
    decreases n
  {
    if n >= 10 {
      DecimalRoundTrip(n / 10);
      var t := NatText(n);
      assert t[..|t| - 1] == NatText(n / 10);
    }
  }

  /** `int` reads back every number its decimal text was written from. */
  lemma ParseIntRoundTrip(i: int)
    ensures ParseInt(IntText(i)) == Ok(i)
  {
    if i < 0 {
      ParseNegative(i);
    } else {
      ParseNatural(i);
    }
  }

  lemma ParseNatural(i: int)
    requires i >= 0
    ensures ParseInt(IntText(i)) == Ok(i)
  {
    var t := NatText(i);
    DecimalRoundTrip(i);
    assert IntText(i) == t && '0' <= t[0] <= '9';
  }

  lemma ParseNegative(i: int)
    requires i < 0
    ensures ParseInt(IntText(i)) == Ok(i)
  {
    ParseMinus(-i);
    assert IntText(i) == "-" + NatText(-i);
  }

  lemma ParseMinus(n: nat)
    ensures ParseInt("-" + NatText(n)) == Ok(-(n as int))
  {
    var t := NatText(n);
    DecimalRoundTrip(n);
    var s := "-" + t;
    assert |s| > 1 && s[0] == '-';
    assert s[1..] == t;
  }

  // ---------------------------------------------------------------------------
  // The scans: `for card in cards[:]: if wanted: take it, cards.remove(card), stop at the limit`

  /** The wanted cards of `s`, in order. */
  function Matching(s: seq<Card>, w: Wanted): seq<Card>
  {
    if s == [] then [] else Matching(s[..|s| - 1], w) + (if Wants(w, s[|s| - 1]) then [s[|s| - 1]] else [])
  }

  /** The other cards of `s`, in order. */
  function Others(s: seq<Card>, w: Wanted): seq<Card>
  {
    if s == [] then [] else Others(s[..|s| - 1], w) + (if Wants(w, s[|s| - 1]) then [] else [s[|s| - 1]])
  }

  /** Every card `Matching` keeps is wanted, and no card `Others` keeps is. */
  lemma {:induction false} MatchingWanted(s: seq<Card>, w: Wanted)
    ensures forall c :: c in Matching(s, w) ==> Wants(w, c)
    ensures forall c :: c in Others(s, w) ==> !Wants(w, c)
    decreases |s|
  {
    if s != [] {
      MatchingWanted(s[..|s| - 1], w);
    }
  }

  lemma {:induction false} MatchingStep(s: seq<Card>, w: Wanted, i: nat)
    requires i < |s|
    ensures Matching(s[..i + 1], w) == Matching(s[..i], w) + (if Wants(w, s[i]) then [s[i]] else [])
    ensures Others(s[..i + 1], w) == Others(s[..i], w) + (if Wants(w, s[i]) then [] else [s[i]])
  {
    assert s[..i + 1][..i] == s[..i];
  }

  /** Where the scan stops: after the `limit`-th wanted card, or at the end. */
  function CutFrom(s: seq<Card>, w: Wanted, limit: nat, from: nat): (k: nat)
    requires from <= |s| && |Matching(s[..from], w)| < limit
    ensures from <= k <= |s|
    ensures k == |s| || |Matching(s[..k], w)| == limit
    ensures |Matching(s[..k], w)| <= limit
    decreases |s| - from
  {
    if from == |s| then from
    else
      MatchingStep(s, w, from);
      if |Matching(s[..from + 1], w)| == limit then from + 1 else CutFrom(s, w, limit, from + 1)
  }

  function Cut(s: seq<Card>, w: Wanted, limit: nat): (k: nat)
    requires limit > 0
    ensures k <= |s| && (k == |s| || |Matching(s[..k], w)| == limit)
    ensures |Matching(s[..k], w)| <= limit
  {
    assert s[..0] == [];
    CutFrom(s, w, limit, 0)
  }

  /** Before the place where a scan stops, fewer than `limit` wanted cards have been seen. */
  lemma CutIsFirst(s: seq<Card>, w: Wanted, limit: nat, j: nat)
    requires limit > 0 && j < Cut(s, w, limit)
    ensures |Matching(s[..j], w)| < limit
  {
    assert s[..0] == [];
    CutFromIsFirst(s, w, limit, 0, j);
  }

  lemma {:induction false} CutFromIsFirst(s: seq<Card>, w: Wanted, limit: nat, from: nat, j: nat)
    requires from <= |s| && |Matching(s[..from], w)| < limit
    requires from <= j < CutFrom(s, w, limit, from)
    ensures |Matching(s[..j], w)| < limit
    decreases |s| - from
  {
    if j > from {
      MatchingStep(s, w, from);
      CutFromIsFirst(s, w, limit, from + 1, j);
    }
  }

  /** The cards a scan takes. */
  function Taken(s: seq<Card>, w: Wanted, limit: nat): seq<Card>
    requires limit > 0
  {
    Matching(s[..Cut(s, w, limit)], w)
  }

  /** The cards a scan leaves in the pool, in their order. */
  function Left(s: seq<Card>, w: Wanted, limit: nat): seq<Card>
    requires limit > 0
  {
    var k := Cut(s, w, limit);
    Others(s[..k], w) + s[k..]
  }

  /** Python `list.remove`: delete the first element equal to `x`. */
  function RemoveFirst(s: seq<Card>, x: Card): (r: seq<Card>)
    requires x in s
    ensures |r| == |s| - 1
  {
    if s[0] == x then s[1..] else [s[0]] + RemoveFirst(s[1..], x)
  }

  /** `list.remove` deletes one copy of `x`, the first one, and keeps the rest in order. */
  lemma RemoveFirstSpec(s: seq<Card>, x: Card)
    requires x in s
    ensures multiset(RemoveFirst(s, x)) == multiset(s) - multiset{x}
    ensures exists i :: 0 <= i < |s| && s[i] == x && x !in s[..i] && RemoveFirst(s, x) == s[..i] + s[i + 1..]
  {
    var i := RemoveFirstAt(s, x);
    RemoveAtMultiset(s, i);
  }

  lemma RemoveAtMultiset<T>(s: seq<T>, i: nat)
    requires i < |s|
    ensures multiset(s[..i] + s[i + 1..]) == multiset(s) - multiset{s[i]}
  {
    assert s == s[..i] + [s[i]] + s[i + 1..];
    assert multiset(s) == multiset(s[..i]) + multiset{s[i]} + multiset(s[i + 1..]);
  }

  /** The position `list.remove` deletes: the first occurrence. */
  lemma {:induction false} RemoveFirstAt(s: seq<Card>, x: Card) returns (i: nat)
    requires x in s
    ensures i < |s| && s[i] == x && x !in s[..i] && RemoveFirst(s, x) == s[..i] + s[i + 1..]
  {
    if s[0] == x {
      i := 0;
    } else {
      var j := RemoveFirstAt(s[1..], x);
      ConsSlices(s, j, x);
      i := j + 1;
    }
  }

  lemma ConsSlices<T>(s: seq<T>, j: nat, x: T)
    requires 0 < |s| && s[0] != x && j < |s| - 1 && s[1..][j] == x && x !in s[1..][..j]
    ensures s[j + 1] == x && x !in s[..j + 1]
    ensures [s[0]] + (s[1..][..j] + s[1..][j + 1..]) == s[..j + 1] + s[j + 2..]
  {
    assert s[..j + 1] == [s[0]] + s[1..][..j];
    assert s[j + 2..] == s[1..][j + 1..];
  }

  lemma {:induction false} RemoveFirstAfter(u: seq<Card>, v: seq<Card>)
    requires |v| > 0 && v[0] !in u
    ensures RemoveFirst(u + v, v[0]) == u + v[1..]
    decreases |u|
  {
    if u != [] {
      assert (u + v)[1..] == u[1..] + v;
      RemoveFirstAfter(u[1..], v);
    } else {
      assert u + v == v;
    }
  }

  /**
   * One scan of the pool (lines 40-44, 48-53, 57-62, 76-80): walk a copy of `cards`
   * in order, move each wanted card to `taken` (removing it from the pool with
   * `cards.remove`), and stop once `limit` cards are taken.
   */
  method TakeMatching(cards: seq<Card>, w: Wanted, limit: nat) returns (taken: seq<Card>, pool: seq<Card>)
    requires limit > 0
    ensures taken == Taken(cards, w, limit) && pool == Left(cards, w, limit)
  {
    var snapshot := cards;
    pool := cards;
    taken := [];
    var i := 0;
    assert snapshot[..0] == [];
    while i < |snapshot|
      invariant 0 <= i <= |snapshot|
      invariant taken == Matching(snapshot[..i], w) && |taken| < limit
      invariant pool == Others(snapshot[..i], w) + snapshot[i..]
      invariant i <= Cut(snapshot, w, limit)
    {
      var card := snapshot[i];
      ScanStep(snapshot, w, limit, i);
      if Wants(w, card) {
        taken := taken + [card];
        pool := RemoveFirst(pool, card);
        if |taken| == limit {
          ScanResult(snapshot, w, limit, i + 1);
          return;
        }
      }
      i := i + 1;
    }
    ScanResult(snapshot, w, limit, i);
  }

  /** A scan that stops at `k` takes the wanted cards before `k` and leaves the others and everything after. */
  lemma ScanResult(s: seq<Card>, w: Wanted, limit: nat, k: nat)
    requires limit > 0 && k == Cut(s, w, limit)
    ensures Taken(s, w, limit) == Matching(s[..k], w)
    ensures Left(s, w, limit) == Others(s[..k], w) + s[k..]
  {
  }

  /** One iteration of a scan, on the pool and on where the scan stops. */
  lemma ScanStep(s: seq<Card>, w: Wanted, limit: nat, i: nat)
    requires limit > 0 && i < |s| && |Matching(s[..i], w)| < limit && i <= Cut(s, w, limit)
    ensures Matching(s[..i + 1], w) == Matching(s[..i], w) + (if Wants(w, s[i]) then [s[i]] else [])
    ensures Wants(w, s[i]) ==>
              && s[i] in Others(s[..i], w) + s[i..]
              && RemoveFirst(Others(s[..i], w) + s[i..], s[i]) == Others(s[..i + 1], w) + s[i + 1..]
    ensures !Wants(w, s[i]) ==> Others(s[..i], w) + s[i..] == Others(s[..i + 1], w) + s[i + 1..]
    ensures |Matching(s[..i + 1], w)| == limit ==> Cut(s, w, limit) == i + 1
    ensures |Matching(s[..i + 1], w)| < limit ==> i + 1 <= Cut(s, w, limit)
  {
    MatchingStep(s, w, i);
    if i + 1 < Cut(s, w, limit) {
      CutIsFirst(s, w, limit, i + 1);
    }
    PoolStep(s, w, i);
  }

  /** One iteration of a scan on the pool: a wanted card is removed from it, any other stays. */
  lemma PoolStep(s: seq<Card>, w: Wanted, i: nat)
    requires i < |s|
    ensures Wants(w, s[i]) ==>
              && s[i] in Others(s[..i], w) + s[i..]
              && RemoveFirst(Others(s[..i], w) + s[i..], s[i]) == Others(s[..i + 1], w) + s[i + 1..]
    ensures !Wants(w, s[i]) ==> Others(s[..i], w) + s[i..] == Others(s[..i + 1], w) + s[i + 1..]
  {
    MatchingStep(s, w, i);
    assert s[i..] == [s[i]] + s[i + 1..];
    if Wants(w, s[i]) {
      MatchingWanted(s[..i], w);
      RemoveFirstAfter(Others(s[..i], w), s[i..]);
    }
  }

  // Properties of a scan

  lemma {:induction false} MatchingAppend(a: seq<Card>, b: seq<Card>, w: Wanted)
    ensures Matching(a + b, w) == Matching(a, w) + Matching(b, w)
    ensures Others(a + b, w) == Others(a, w) + Others(b, w)
    decreases |b|
  {
    if b == [] {
      assert a + b == a;
    } else {
      var b' := b[..|b| - 1];
      assert (a + b)[..|a + b| - 1] == a + b';
      MatchingAppend(a, b', w);
    }
  }

  lemma {:induction false} MatchingPartition(s: seq<Card>, w: Wanted)
    ensures multiset(Matching(s, w)) + multiset(Others(s, w)) == multiset(s)
    decreases |s|
  {
    if s != [] {
      MatchingPartition(s[..|s| - 1], w);
      assert s == s[..|s| - 1] + [s[|s| - 1]];
    }
  }

  lemma {:induction false} OthersWanted(s: seq<Card>, w: Wanted)
    ensures Matching(Others(s, w), w) == []
    decreases |s|
  {
    if s != [] {
      var init := s[..|s| - 1];
      OthersWanted(init, w);
      var tail := if Wants(w, s[|s| - 1]) then [] else [s[|s| - 1]];
      MatchingAppend(Others(init, w), tail, w);
      if tail != [] {
        assert tail[..0] == [];
      }
    }
  }

  /** A scan takes the first `limit` wanted cards, or all of them when there are fewer. */
  lemma ScanTakesFirst(s: seq<Card>, w: Wanted, limit: nat)
    requires limit > 0
    ensures var t := Taken(s, w, limit);
      && |t| == (if |Matching(s, w)| < limit then |Matching(s, w)| else limit)
      && t == Matching(s, w)[..|t|]
  {
    var k := Cut(s, w, limit);
    TakesFirstAt(s, k, w);
    if k == |s| {
      assert s[..k] == s;
    }
  }

  /** The wanted cards of a prefix are the first wanted cards of the whole. */
  lemma TakesFirstAt(s: seq<Card>, k: nat, w: Wanted)
    requires k <= |s|
    ensures Matching(s, w) == Matching(s[..k], w) + Matching(s[k..], w)
  {
    var p, q := s[..k], s[k..];
    assert p + q == s;
    MatchingAppend(p, q, w);
  }

  /** A scan loses no card and invents none: what it takes and what it leaves make up the pool before. */
  lemma ScanKeepsCards(s: seq<Card>, w: Wanted, limit: nat)
    requires limit > 0
    ensures multiset(Taken(s, w, limit)) + multiset(Left(s, w, limit)) == multiset(s)
  {
    var k := Cut(s, w, limit);
    var p, q := s[..k], s[k..];
    assert p + q == s;
    MatchingPartition(p, w);
  }

  /** The wanted cards a scan leaves are the ones after those it took, in order. */
  lemma ScanLeavesRest(s: seq<Card>, w: Wanted, limit: nat)
    requires limit > 0
    ensures |Taken(s, w, limit)| <= |Matching(s, w)|
    ensures Matching(Left(s, w, limit), w) == Matching(s, w)[|Taken(s, w, limit)|..]
  {
    LeavesRestAt(s, Cut(s, w, limit), w);
  }

  lemma LeavesRestAt(s: seq<Card>, k: nat, w: Wanted)
    requires k <= |s|
    ensures |Matching(s[..k], w)| <= |Matching(s, w)|
    ensures Matching(Others(s[..k], w) + s[k..], w) == Matching(s, w)[|Matching(s[..k], w)|..]
  {
    var p, q := s[..k], s[k..];
    assert p + q == s;
    LeavesRest(p, q, w);
  }

  /** Taking every wanted card of `p` leaves, of `p + q`, the wanted cards of `q`. */
  lemma LeavesRest(p: seq<Card>, q: seq<Card>, w: Wanted)
    ensures |Matching(p, w)| <= |Matching(p + q, w)|
    ensures Matching(Others(p, w) + q, w) == Matching(p + q, w)[|Matching(p, w)|..]
  {
    MatchingAppend(p, q, w);
    MatchingAppend(Others(p, w), q, w);
    OthersWanted(p, w);
  }

  // ---------------------------------------------------------------------------
  // The bench

  /** The Energy bench Pokémon `i` receives. */
  function AttachedEnergy(energy: seq<Card>, i: nat): seq<Card>
  {
    if i < |energy| then [energy[i]] else []
  }

  /** The error of the first card whose `hp` does not convert, if any. */
  function FirstHpError(cards: seq<Card>): Option<string>
  {
    if cards == [] then None
    else match HpValue(cards[0].info.hp)
      case Err(e) => Some(e)
      case Ok(_) => FirstHpError(cards[1..])
  }

  lemma {:induction false} FirstHpErrorNone(cards: seq<Card>)
    ensures FirstHpError(cards).None? <==> forall i :: 0 <= i < |cards| ==> HpValue(cards[i].info.hp).Ok?
    decreases |cards|
  {
    if cards != [] {
      FirstHpErrorNone(cards[1..]);
      assert forall i :: 1 <= i < |cards| ==> cards[i] == cards[1..][i - 1];
    }
  }

  lemma {:induction false} FirstHpErrorStep(cards: seq<Card>, i: nat)
    requires i < |cards| && FirstHpError(cards[..i]).None?
    ensures FirstHpError(cards[..i + 1]) ==
      if HpValue(cards[i].info.hp).Err? then Some(HpValue(cards[i].info.hp).message) else None
    decreases i
  {
    if i > 0 {
      assert cards[..i + 1][1..] == cards[1..][..i];
      assert cards[..i][1..] == cards[1..][..i - 1];
      FirstHpErrorStep(cards[1..], i - 1);
    }
  }

  /** The bench the setup builds from the benched Basics and the Energies found. */
  function Bench(benchCards: seq<Card>, energy: seq<Card>): Result<seq<PokemonInPlay>>
  {
    match FirstHpError(benchCards)
    case Some(e) => Err(e)
    case None =>
      FirstHpErrorNone(benchCards);
      Ok(seq(|benchCards|, i requires 0 <= i < |benchCards| =>
        PokemonInPlay(benchCards[i].info, HpValue(benchCards[i].info.hp).value, Some(AttachedEnergy(energy, i)))))
  }

  /** The `enumerate(bench_cards)` loop (lines 65-72); `int()` may raise on a card's `hp`. */
  method BuildBench(benchCards: seq<Card>, energy: seq<Card>) returns (r: Result<seq<PokemonInPlay>>)
    ensures r == Bench(benchCards, energy)
  {
    var benchPokemon: seq<PokemonInPlay> := [];
    var i := 0;
    while i < |benchCards|
      invariant 0 <= i <= |benchCards|
      invariant FirstHpError(benchCards[..i]).None?
      invariant |benchPokemon| == i
      invariant forall j :: 0 <= j < i ==>
                  HpValue(benchCards[j].info.hp).Ok? &&
                  benchPokemon[j] == PokemonInPlay(benchCards[j].info, HpValue(benchCards[j].info.hp).value, Some(AttachedEnergy(energy, j)))
    {
      var pokemon := benchCards[i];
      var attached := if i < |energy| then [energy[i]] else [];
      var hp := HpValue(pokemon.info.hp);
      FirstHpErrorStep(benchCards, i);
      if hp.Err? {
        assert benchCards == benchCards[..i + 1] + benchCards[i + 1..];
        FirstHpErrorPrefix(benchCards, i + 1);
        return Err(hp.message);
      }
      benchPokemon := benchPokemon + [PokemonInPlay(pokemon.info, hp.value, Some(attached))];
      i := i + 1;
    }
    assert benchCards[..i] == benchCards;
    FirstHpErrorNone(benchCards);
    assert benchPokemon == seq(|benchCards|, j requires 0 <= j < |benchCards| =>
      PokemonInPlay(benchCards[j].info, HpValue(benchCards[j].info.hp).value, Some(AttachedEnergy(energy, j))));
    r := Ok(benchPokemon);
  }

  /** An error in a prefix is the first error of the whole list. */
  lemma {:induction false} FirstHpErrorPrefix(cards: seq<Card>, n: nat)
    requires n <= |cards| && FirstHpError(cards[..n]).Some?
    ensures FirstHpError(cards) == FirstHpError(cards[..n])
    decreases n
  {
    if HpValue(cards[0].info.hp).Ok? {
      assert cards[..n][1..] == cards[1..][..n - 1];
      FirstHpErrorPrefix(cards[1..], n - 1);
    }
  }

  // ---------------------------------------------------------------------------
  // `get_initial_state`

  /** Python `s[:n]`. */
  function Take(s: seq<Card>, n: nat): seq<Card>
  {
    if n <= |s| then s[..n] else s
  }

  /** Python `s[n:]`. */
  function Drop(s: seq<Card>, n: nat): seq<Card>
  {
    if n <= |s| then s[n..] else []
  }

  /** The piles dealt from the pool left after the scans (lines 84-92). */
  function Piles(cards: seq<Card>, active: Option<PokemonInPlay>, bench: seq<PokemonInPlay>, stadium: Option<Card>): PlayerState
  {
    PlayerState(
      active := active,
      bench := bench,
      discard := if |cards| > 0 then [cards[0]] else [],
      lostZone := if |cards| > 1 then [cards[1]] else [],
      deck := Drop(cards, 13),
      hand := Take(cards, 7),
      stadium := stadium,
      prizeCards := if |cards| > 13 then cards[7..13] else [])
  }

  // The scans in the order the setup runs them.
  function ActiveTaken(s: seq<Card>): seq<Card> { Taken(s, BasicPokemon, 1) }
  function AfterActive(s: seq<Card>): seq<Card> { Left(s, BasicPokemon, 1) }
  function BenchTaken(s: seq<Card>): seq<Card> { Taken(AfterActive(s), BasicPokemon, 3) }
  function AfterBench(s: seq<Card>): seq<Card> { Left(AfterActive(s), BasicPokemon, 3) }
  function EnergyTaken(s: seq<Card>): seq<Card> { Taken(AfterBench(s), EnergyCard, 3) }
  function AfterEnergy(s: seq<Card>): seq<Card> { Left(AfterBench(s), EnergyCard, 3) }
  function StadiumTaken(s: seq<Card>): seq<Card> { Taken(AfterEnergy(s), StadiumTrainer, 1) }
  function Pool(s: seq<Card>): seq<Card> { Left(AfterEnergy(s), StadiumTrainer, 1) }

  /** The board `get_initial_state` returns for the shuffled deck `s`, or the error `int()` raises. */
  function InitialBoard(s: seq<Card>): Result<BoardState>
  {
    match Bench(BenchTaken(s), EnergyTaken(s))
    case Err(e) => Err(e)
    case Ok(bench) =>
      var active := ActiveTaken(s);
      if |active| > 0 && HpValue(active[0].info.hp).Err? then Err(HpValue(active[0].info.hp).message)
      else
        var activePokemon := if |active| > 0 then Some(PokemonInPlay(active[0].info, HpValue(active[0].info.hp).value, None)) else None;
        var state := Piles(Pool(s), activePokemon, bench, if |StadiumTaken(s)| > 0 then Some(StadiumTaken(s)[0]) else None);
        Ok(BoardState(state, state))
  }

  /** `get_initial_state`, for the deck after `random.shuffle`. */
  method GetInitialState(shuffled: seq<Card>) returns (r: Result<BoardState>)
    ensures r == InitialBoard(shuffled)
  {
    var activeCards, cards := TakeMatching(shuffled, BasicPokemon, 1);
    var benchCards;
    benchCards, cards := TakeMatching(cards, BasicPokemon, 3);
    var energyCards;
    energyCards, cards := TakeMatching(cards, EnergyCard, 3);
    var bench := BuildBench(benchCards, energyCards);
    if bench.Err? {
      return Err(bench.message);
    }
    var stadiumCards;
    stadiumCards, cards := TakeMatching(cards, StadiumTrainer, 1);
    var stadium := if |stadiumCards| > 0 then Some(stadiumCards[0]) else None;
    var active: Option<PokemonInPlay> := None;
    if |activeCards| > 0 {
      var hp := HpValue(activeCards[0].info.hp);
      if hp.Err? {
        return Err(hp.message);
      }
      active := Some(PokemonInPlay(activeCards[0].info, hp.value, None));
    }
    var playerState := Piles(cards, active, bench.value, stadium);
    r := Ok(BoardState(playerState, playerState));
  }

  // ---------------------------------------------------------------------------
  // Properties of the setup

  function Min(a: nat, b: nat): nat
  {
    if a < b then a else b
  }

  /** No card is of two wanted kinds. */
  lemma KindsDisjoint(w: Wanted, w': Wanted, c: Card)
    requires w != w' && Wants(w, c)
    ensures !Wants(w', c)
  {
  }

  lemma {:induction false} OthersKeepOtherKinds(t: seq<Card>, w: Wanted, w': Wanted)
    requires w != w'
    ensures Matching(Others(t, w), w') == Matching(t, w')
    decreases |t|
  {
    if t != [] {
      var init := t[..|t| - 1];
      var last := t[|t| - 1];
      OthersKeepOtherKinds(init, w, w');
      var tail := if Wants(w, last) then [] else [last];
      MatchingAppend(Others(init, w), tail, w');
      if Wants(w, last) {
        KindsDisjoint(w, w', last);
      } else {
        assert tail[..0] == [];
      }
    }
  }

  /** A scan for one kind leaves the cards of every other kind in place. */
  lemma ScanKeepsOtherKinds(s: seq<Card>, w: Wanted, limit: nat, w': Wanted)
    requires limit > 0 && w != w'
    ensures Matching(Left(s, w, limit), w') == Matching(s, w')
  {
    var k := Cut(s, w, limit);
    assert s == s[..k] + s[k..];
    MatchingAppend(s[..k], s[k..], w');
    MatchingAppend(Others(s[..k], w), s[k..], w');
    OthersKeepOtherKinds(s[..k], w, w');
  }

  /** Two scans for the same kind take consecutive runs of its cards. */
  /** `a` is the first `first` items of `m` (or all of them), and `b` the next `second` (or all that remain). */
  predicate Consecutive(m: seq<Card>, a: seq<Card>, b: seq<Card>, first: nat, second: nat)
  {
    && |a| == Min(first, |m|)
    && |b| == Min(second, |m| - |a|)
    && a == m[..|a|]
    && b == m[|a|..|a| + |b|]
  }

  lemma ConsecutiveScans(s: seq<Card>, w: Wanted, first: nat, second: nat)
    requires first > 0 && second > 0
    ensures Consecutive(Matching(s, w), Taken(s, w, first), Taken(Left(s, w, first), w, second), first, second)
  {
    ScanTakesFirst(s, w, first);
    ScanLeavesRest(s, w, first);
    ScanTakesFirst(Left(s, w, first), w, second);
    Runs(Matching(s, w), Taken(s, w, first), Matching(Left(s, w, first), w), Taken(Left(s, w, first), w, second), first, second);
  }

  lemma Runs(m: seq<Card>, a: seq<Card>, rest: seq<Card>, b: seq<Card>, first: nat, second: nat)
    requires |a| == Min(first, |m|) && a == m[..|a|] && rest == m[|a|..]
    requires |b| == Min(second, |rest|) && b == rest[..|b|]
    ensures Consecutive(m, a, b, first, second)
  {
  }

  /** The active Pokémon is the deck's first Basic Pokémon, and the bench holds the next (up to) three, in order. */
  lemma ActiveAndBenchScans(s: seq<Card>)
    ensures Consecutive(Matching(s, BasicPokemon), ActiveTaken(s), BenchTaken(s), 1, 3)
  {
    ConsecutiveScans(s, BasicPokemon, 1, 3);
  }

  /** The Energies set aside are the deck's first (up to) three Energy cards. */
  lemma EnergyScan(s: seq<Card>)
    ensures var energies := Matching(s, EnergyCard);
      EnergyTaken(s) == energies[..Min(3, |energies|)]
  {
    ScanKeepsOtherKinds(s, BasicPokemon, 1, EnergyCard);
    ScanKeepsOtherKinds(AfterActive(s), BasicPokemon, 3, EnergyCard);
    ScanTakesFirst(AfterBench(s), EnergyCard, 3);
  }

  /** The stadium is the deck's first Stadium Trainer, if there is one. */
  lemma StadiumScan(s: seq<Card>)
    ensures var stadiums := Matching(s, StadiumTrainer);
      StadiumTaken(s) == stadiums[..Min(1, |stadiums|)]
  {
    ScanKeepsOtherKinds(s, BasicPokemon, 1, StadiumTrainer);
    ScanKeepsOtherKinds(AfterActive(s), BasicPokemon, 3, StadiumTrainer);
    ScanKeepsOtherKinds(AfterBench(s), EnergyCard, 3, StadiumTrainer);
    ScanTakesFirst(AfterEnergy(s), StadiumTrainer, 1);
  }

  /** Every card of the deck ends up in exactly one of the active, bench, energy, stadium and pool groups. */
  lemma SetupKeepsCards(s: seq<Card>)
    ensures multiset(ActiveTaken(s)) + multiset(BenchTaken(s)) + multiset(EnergyTaken(s))
          + multiset(StadiumTaken(s)) + multiset(Pool(s)) == multiset(s)
  {
    ScanKeepsCards(s, BasicPokemon, 1);
    ScanKeepsCards(AfterActive(s), BasicPokemon, 3);
    ScanKeepsCards(AfterBench(s), EnergyCard, 3);
    ScanKeepsCards(AfterEnergy(s), StadiumTrainer, 1);
  }

  /**
   * The board: both players share one state; the active Pokémon carries no attachment;
   * bench Pokémon `i` carries the `i`-th Energy found, or nothing once they run out; every
   * `hp` is the converted card `hp`, 0 when absent.
   */
  lemma BoardSpec(s: seq<Card>)
    requires InitialBoard(s).Ok?
    ensures var b := InitialBoard(s).value;
      && b.playerOne == b.playerTwo
      && (b.playerOne.active.Some? <==> |ActiveTaken(s)| > 0)
      && (b.playerOne.active.Some? ==>
            var a := b.playerOne.active.value;
            a.info == ActiveTaken(s)[0].info && a.attachedCards.None? && HpValue(a.info.hp) == Ok(a.hp))
      && |b.playerOne.bench| == |BenchTaken(s)|
      && (forall i :: 0 <= i < |BenchTaken(s)| ==>
            var p := b.playerOne.bench[i];
            && p.info == BenchTaken(s)[i].info
            && HpValue(p.info.hp) == Ok(p.hp)
            && p.attachedCards == Some(if i < |EnergyTaken(s)| then [EnergyTaken(s)[i]] else []))
      && b.playerOne.stadium == (if |StadiumTaken(s)| > 0 then Some(StadiumTaken(s)[0]) else None)
  {
    var bench := Bench(BenchTaken(s), EnergyTaken(s)).value;
    assert InitialBoard(s).value.playerOne.bench == bench;
    FirstHpErrorNone(BenchTaken(s));
    forall i | 0 <= i < |BenchTaken(s)|
      ensures bench[i] == PokemonInPlay(BenchTaken(s)[i].info, HpValue(BenchTaken(s)[i].info.hp).value,
                                        Some(AttachedEnergy(EnergyTaken(s), i)))
    {
    }
  }

  /** Setting up fails exactly when a benched or active card's `hp` does not convert. */
  lemma SetupFails(s: seq<Card>)
    ensures InitialBoard(s).Err? <==>
      (exists i :: 0 <= i < |BenchTaken(s)| && HpValue(BenchTaken(s)[i].info.hp).Err?)
      || (|ActiveTaken(s)| > 0 && HpValue(ActiveTaken(s)[0].info.hp).Err?)
  {
    FirstHpErrorNone(BenchTaken(s));
  }

  /**
   * The hand, the prizes and the deck deal out the remaining pool exactly when it has at
   * most 7 or more than 13 cards: with 8 to 13 cards, the cards after the hand are in no pile.
   */
  lemma PilesCoverPool(cards: seq<Card>, active: Option<PokemonInPlay>, bench: seq<PokemonInPlay>, stadium: Option<Card>)
    ensures var p := Piles(cards, active, bench, stadium);
      p.hand + p.prizeCards + p.deck == cards <==> |cards| <= 7 || |cards| > 13
    ensures var p := Piles(cards, active, bench, stadium);
      && |p.hand| == Min(7, |cards|)
      && p.hand == cards[..Min(7, |cards|)]
      && (|cards| > 13 ==> p.prizeCards == cards[7..13]) && (|cards| <= 13 ==> p.prizeCards == [])
      && p.deck == cards[Min(13, |cards|)..]
      && (|cards| > 0 ==> p.discard == [p.hand[0]])
      && (|cards| > 1 ==> p.lostZone == [p.hand[1]])
  {
    var p := Piles(cards, active, bench, stadium);
    if |cards| > 13 {
      assert cards == cards[..7] + cards[7..13] + cards[13..];
    } else if 7 < |cards| {
      assert |p.hand + p.prizeCards + p.deck| == 7;
    }
  }
}
