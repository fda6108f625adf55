/** The spotlight hook: highlight a card by id and optionally open it enlarged, or clear both. */
module Spotlight {
  import opened Wrappers
  import opened Store

  /**
   * `spotlightCard(cardId, highlightOnly)`: no id clears both fields; an id missing from
   * the card map changes nothing; a known id becomes the highlighted card and, unless
   * only a highlight is asked for, the spotlight with its large image.
   */
  method SpotlightCard(atoms: Atoms, cardId: Option<int>, highlightOnly: bool)
    modifies atoms
    ensures atoms.cardMap == old(atoms.cardMap) && atoms.activePlayer == old(atoms.activePlayer)
    ensures cardId.None? ==> atoms.highlighted == None && atoms.spotlight == None
    ensures cardId.Some? && cardId.value !in atoms.cardMap ==>
      atoms.highlighted == old(atoms.highlighted) && atoms.spotlight == old(atoms.spotlight)
    ensures cardId.Some? && cardId.value in atoms.cardMap ==>
      && atoms.highlighted == cardId
      && atoms.spotlight == (if highlightOnly then old(atoms.spotlight)
                             else Some(Spotlight(cardId.value, atoms.cardMap[cardId.value])))
  {
    if cardId.None? {
      atoms.highlighted := None;
      atoms.spotlight := None;
      return;
    }
    var id := cardId.value;
    if id !in atoms.cardMap {
      return;
    }
    atoms.highlighted := Some(id);
    if !highlightOnly {
      atoms.spotlight := Some(Spotlight(id, atoms.cardMap[id]));
    }
  }

  /** `clearSpotlight()`: no highlighted card and no spotlight. */
  method ClearSpotlight(atoms: Atoms)
    modifies atoms
    ensures atoms.highlighted == None && atoms.spotlight == None
    ensures atoms.cardMap == old(atoms.cardMap) && atoms.activePlayer == old(atoms.activePlayer)
  {
    atoms.highlighted := None;
    atoms.spotlight := None;
  }
}
