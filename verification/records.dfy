/** The documents stored by the back end and the in-memory store that holds them. */
module Records {
  import opened Basics

  /** A stock item (`Material`); `quantite` is an unbounded integer and may be negative. */
  datatype Material = Material(id: string, nom: string, quantite: int, dateAjout: int)

  /** An agent or a supervisor: both documents have exactly these three fields. */
  datatype Person = Person(id: string, nom: string, matricule: string)

  /** The body of a withdrawal-creation call (`DemandeSortieCreate`). */
  datatype DemandeCreate = DemandeCreate(
    superviseurId: string,
    agent1Id: string,
    agent2Id: string,
    materielsDemandes: map<string, int>,
    signature: Option<string>)

  /** A stored withdrawal request (`DemandeSortie`), with the names and badge
      numbers of the people it names copied in. */
  datatype Demande = Demande(
    id: string,
    superviseurId: string,
    superviseurNom: string,
    superviseurMatricule: string,
    agent1Id: string,
    agent1Nom: string,
    agent1Matricule: string,
    agent2Id: string,
    agent2Nom: string,
    agent2Matricule: string,
    date: int,
    materielsDemandes: map<string, int>,
    signature: Option<string>,
    status: string)

  /** The body of a partial material update (`MaterialUpdate`): `None` means "leave as is". */
  datatype MaterialUpdate = MaterialUpdate(nom: Option<string>, quantite: Option<int>)

  /** How many documents a listing endpoint returns at most (`to_list(1000)`). */
  const ListLimit: nat := 1000

  /** The status every new request gets: the model's field default. */
  const DefaultStatus: string := "en_attente"

  /** The collections the endpoints read and write, each in the database's natural order. */
  datatype Store = Store(
    materials: seq<Material>,
    agents: seq<Person>,
    superviseurs: seq<Person>,
    demandes: seq<Demande>)

  /** What a writing endpoint yields: its body or error, and the store after the call. */
  datatype Response<+T> = Response(result: Result<T>, store: Store)

}
