// Identifiers shared by the client and the server (Common/Game, Common/Identity).

module GameIds {
  datatype RoomId = RoomId(value: int)

  datatype PlayerId = PlayerId(value: nat)

  datatype PersistentPlayerId = PersistentPlayerId(value: int)
}
