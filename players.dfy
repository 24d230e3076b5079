/** Players: an identity with a non-empty name. */
module Players {
  import opened Wrappers

  /**
   * A player. The id stands for the identity of the player object, so two
   * players with the same name but different ids are different players.
   */
  datatype Player = Player(id: nat, name: string)

  /** The Player constructor: fails for an empty name. */
  function NewPlayer(id: nat, name: string): (r: Result<Player>)
    ensures r.Ok? <==> name != []
    ensures r.Err? ==> r.error == EmptyName
    ensures r.Ok? ==> r.value.name == name && r.value.id == id
  {
    if name == [] then Err(EmptyName) else Ok(Player(id, name))
  }
}
