/**
 * The account-type and universe codes a SteamID stores. The enumerations
 * themselves are not part of this model; these are the codes of SteamKit's
 * EAccountType and EUniverse. Contracts name the codes and use only the
 * comparisons the SteamID code makes with them. A code is held as the
 * 64-bit pattern the SteamID setters cast it to (`(UInt64)value`).
 */
module EAccountType {
  const Invalid: bv64 := 0
  const Individual: bv64 := 1
  const Multiseat: bv64 := 2
  const GameServer: bv64 := 3
  const AnonGameServer: bv64 := 4
  const Pending: bv64 := 5
  const ContentServer: bv64 := 6
  const Clan: bv64 := 7
  const Chat: bv64 := 8
  /** Shares its code with P2PSuperSeeder. */
  const ConsoleUser: bv64 := 9
  const AnonUser: bv64 := 10
  const Max: bv64 := 11
}

module EUniverse {
  const Invalid: bv64 := 0
  const Public: bv64 := 1
  const Beta: bv64 := 2
  const Internal: bv64 := 3
  const Dev: bv64 := 4
  const Max: bv64 := 5
}
