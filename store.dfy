/**
 * The client's shared atoms: the card map, the spotlighted card, the highlighted
 * card id and the active player. Every component reads and writes these one object.
 */
module Store {
  import opened Wrappers

  /** The player whose turn is shown. */
  type PlayerNumber = n: int | n == 1 || n == 2 witness 1

  /** Card id to the card's large image (`cardMap[id].images.large`). */
  type CardMap = map<int, string>

  /** The card shown enlarged over the board. */
  datatype Spotlight = Spotlight(id: int, img: string)

  class Atoms {
    var cardMap: CardMap
    var spotlight: Option<Spotlight>
    var highlighted: Option<int>
    var activePlayer: PlayerNumber

    /** The atoms' initial values. */
    constructor ()
      ensures cardMap == map[] && spotlight == None && highlighted == None && activePlayer == 1
    {
      cardMap := map[];
      spotlight := None;
      highlighted := None;
      activePlayer := 1;
    }
  }
}
