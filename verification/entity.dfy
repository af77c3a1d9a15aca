/** The rows of the relational store: a club with its optional stadium
    (one-to-one) and its players (one-to-many). The relations are present in
    a read result only when the read asked for them. */
module Entity {
  import opened Wrappers

  datatype Stadion = Stadion(id: nat, stadt: string, kapazitaet: int, strasse: string, hausnummer: string)

  datatype Spieler = Spieler(id: nat, vorname: string, nachname: string, alter: int, fuss: string)

  datatype Fussballverein = Fussballverein(
    id: nat,
    version: nat,
    name: string,
    mitgliederanzahl: Option<int>,
    website: Option<string>,
    email: Option<string>,
    telefonnummer: Option<string>,
    gruendungsdatum: Option<string>,
    schlagwoerter: Option<seq<string>>,
    stadion: Option<Stadion>,
    spieler: Option<seq<Spieler>>)

  /** The relation-inclusion descriptor handed to the store with each read. */
  datatype Include = Include(stadion: bool, spieler: bool)

  /** A row as the store returns it for relation set `relations`: an included
      stadium is the stored one (or none), included players are the stored
      list (empty when there are none), and an excluded relation is absent. */
  function Load(row: Fussballverein, relations: Include): Fussballverein {
    row.(stadion := if relations.stadion then row.stadion else None,
         spieler := if relations.spieler then Some(row.spieler.GetOr([])) else None)
  }
}
