/**
 * The application shell: the introduction slides lead to the home page, the home
 * page starts the game, and the game view loads the board from the server and syncs
 * the highlighted card into the shared atoms.
 */
module App {
  import opened Wrappers
  import opened Json
  import opened Store

  datatype View = Slide1 | Slide2 | Slide3 | Home | Game

  /** `handleNext`: the slides advance in order to the home page; the home page and the game stay. */
  function Next(v: View): (r: View)
    ensures v in {Slide1, Slide2} ==> r in {Slide2, Slide3} && r != v
    ensures v == Slide3 ==> r == Home
    ensures v in {Home, Game} ==> r == v
    ensures r != Game || v == Game
  {
    match v
    case Slide1 => Slide2
    case Slide2 => Slide3
    case Slide3 => Home
    case _ => v
  }

  /** What `renderView` draws. */
  datatype Screen = SlideScreen(heading: string, isLastSlide: bool) | HomeScreen | GameScreen

  function RenderView(v: View): (s: Screen)
    ensures s.SlideScreen? <==> v in {Slide1, Slide2, Slide3}
    ensures s.SlideScreen? ==> (s.isLastSlide <==> v == Slide3)
    ensures s == HomeScreen <==> v == Home
    ensures s == GameScreen <==> v == Game
  {
    match v
    case Slide1 => SlideScreen("WELCOME TO POKEPLAY.AI", false)
    case Slide2 => SlideScreen("AI-POWERED GAMEPLAY", false)
    case Slide3 => SlideScreen("LET'S BEGIN!", true)
    case Home => HomeScreen
    case Game => GameScreen
  }

  /** What the user can do: click a slide's next button, or the home page's start button. */
  datatype Click = NextClick | StartClick

  /** A click on what the current screen shows; a button not on the screen cannot be clicked. */
  function Step(v: View, c: Click): View
  {
    match c
    case NextClick => if RenderView(v).SlideScreen? then Next(v) else v
    case StartClick => if v == Home then Game else v
  }

  /** The view after a run of clicks. */
  function Run(v: View, clicks: seq<Click>): View
  {
    if clicks == [] then v else Step(Run(v, clicks[..|clicks| - 1]), clicks[|clicks| - 1])
  }

  /** The game is only ever reached by the start button, clicked on the home page. */
  lemma {:induction false} GameOnlyFromHome(clicks: seq<Click>)
    requires Run(Slide1, clicks) == Game
    ensures exists i :: 0 <= i < |clicks| && clicks[i] == StartClick && Run(Slide1, clicks[..i]) == Home
  {
    var init := clicks[..|clicks| - 1];
    var last := clicks[|clicks| - 1];
    if Run(Slide1, init) == Game {
      GameOnlyFromHome(init);
      var i :| 0 <= i < |init| && init[i] == StartClick && Run(Slide1, init[..i]) == Home;
      assert clicks[..i] == init[..i];
    } else {
      assert clicks[..|clicks| - 1] == init;
    }
  }

  /** Three next-clicks from the first slide reach the home page, and one start-click the game. */
  lemma {:induction false} IntroductionPath()
    ensures Run(Slide1, [NextClick, NextClick, NextClick]) == Home
    ensures Run(Slide1, [NextClick, NextClick, NextClick, StartClick]) == Game
  {
    var one, two, three := [NextClick], [NextClick, NextClick], [NextClick, NextClick, NextClick];
    var four := three + [StartClick];
    assert one[..0] == [];
    assert Run(Slide1, one) == Slide2;
    assert two[..1] == one;
    assert Run(Slide1, two) == Slide3;
    assert three[..2] == two;
    assert Run(Slide1, three) == Home;
    assert four[..3] == three;
    assert four == [NextClick, NextClick, NextClick, StartClick];
    assert Run(Slide1, four) == Game;
  }

  class Shell {
    var view: View

    constructor ()
      ensures view == Slide1
    {
      view := Slide1;
    }

    method HandleNext()
      modifies this
      ensures view == Next(old(view))
    {
      match view {
        case Slide1 => view := Slide2;
        case Slide2 => view := Slide3;
        case Slide3 => view := Home;
        case _ =>
      }
    }

    /** The home page's start callback. */
    method StartGame()
      modifies this
      ensures view == Game
    {
      view := Game;
    }
  }

  /** `highlightedCard` as the server sends it: missing, explicitly null, or an id. */
  datatype Highlight = Absent | Null | Id(id: int)

  /** The board state the game view fetches: both players' states, the card map if sent, and the highlight. */
  datatype Loaded = Loaded(playerOne: Json, playerTwo: Json, cardMap: Option<CardMap>, highlightedCard: Highlight)

  /** The upper, turned-around board: the opponent of the active player. */
  function UpperBoard(activePlayer: PlayerNumber, s: Loaded): Json
  {
    if activePlayer == 1 then s.playerTwo else s.playerOne
  }

  /** The lower board: the active player's own. */
  function LowerBoard(activePlayer: PlayerNumber, s: Loaded): Json
  {
    if activePlayer == 1 then s.playerOne else s.playerTwo
  }

  /** The `isPlayerTwo` flag the upper board is drawn with. */
  function UpperIsPlayerTwo(activePlayer: PlayerNumber): bool
  {
    activePlayer == 1
  }

  /** The `isPlayerTwo` flag the lower board is drawn with. */
  function LowerIsPlayerTwo(activePlayer: PlayerNumber): bool
  {
    activePlayer == 2
  }

  /**
   * The active player sits below and the opponent above, each board is drawn
   * once, the flags name the right player, and switching the active player swaps the boards.
   */
  lemma BoardsMirror(p: PlayerNumber, q: PlayerNumber, s: Loaded)
    requires p != q
    ensures LowerBoard(p, s) == (if p == 1 then s.playerOne else s.playerTwo)
    ensures UpperBoard(p, s) == (if p == 1 then s.playerTwo else s.playerOne)
    ensures UpperIsPlayerTwo(p) != LowerIsPlayerTwo(p)
    ensures UpperBoard(p, s) == (if UpperIsPlayerTwo(p) then s.playerTwo else s.playerOne)
    ensures LowerBoard(p, s) == (if LowerIsPlayerTwo(p) then s.playerTwo else s.playerOne)
    ensures UpperBoard(p, s) == LowerBoard(q, s) && LowerBoard(p, s) == UpperBoard(q, s)
  {
  }

  class GameView {
    var gameState: Option<Loaded>

    constructor ()
      ensures gameState == None
    {
      gameState := None;
    }

    /**
     * `loadGameState`: a failed fetch changes nothing. Otherwise the board is kept, the
     * card map is replaced only when one was sent, and a non-zero highlighted id known
     * to that map becomes the highlight and the spotlight, while an explicit null clears
     * both. A non-zero id with no card map sent fails the lookup, which is caught, and
     * leaves the highlight alone.
     */
    method LoadGameState(atoms: Atoms, fetched: Result<Loaded>)
      modifies this, atoms
      ensures atoms.activePlayer == old(atoms.activePlayer)
      ensures fetched.Err? ==>
        && gameState == old(gameState) && atoms.cardMap == old(atoms.cardMap)
        && atoms.highlighted == old(atoms.highlighted) && atoms.spotlight == old(atoms.spotlight)
      ensures fetched.Ok? ==> var s := fetched.value;
        && gameState == Some(s)
        && atoms.cardMap == (if s.cardMap.Some? then s.cardMap.value else old(atoms.cardMap))
        && (if s.highlightedCard.Id? && s.highlightedCard.id != 0 && s.cardMap.Some?
               && s.highlightedCard.id in s.cardMap.value then
              var id := s.highlightedCard.id;
              atoms.highlighted == Some(id) && atoms.spotlight == Some(Spotlight(id, s.cardMap.value[id]))
            else if s.highlightedCard == Null then
              atoms.highlighted == None && atoms.spotlight == None
            else
              atoms.highlighted == old(atoms.highlighted) && atoms.spotlight == old(atoms.spotlight))
    {
      if fetched.Err? {
        return;
      }
      var s := fetched.value;
      gameState := Some(s);
      if s.cardMap.Some? {
        atoms.cardMap := s.cardMap.value;
      }
      if s.highlightedCard.Id? && s.highlightedCard.id != 0 {
        if s.cardMap.None? {
          // The lookup on a missing card map throws; the error is only logged.
          return;
        }
        var id := s.highlightedCard.id;
        if id in s.cardMap.value {
          atoms.highlighted := Some(id);
          atoms.spotlight := Some(Spotlight(id, s.cardMap.value[id]));
        }
      } else if s.highlightedCard == Null {
        atoms.highlighted := None;
        atoms.spotlight := None;
      }
    }
  }
}
