/** The set-once account options: type and native currency. */
module AccountOptionsStates {
  import opened Common
  import opened Monetary
  import opened AccountTypes

  datatype Options = Options(accountType: AccountType, nativeCurrency: Currency)

  predicate Exists(stored: Option<Options>) {
    stored.Some?
  }

  /** Fails when options already exist; otherwise they are stored at once. */
  function Create(stored: Option<Options>, o: Options): (r: Result<Option<Options>>)
    ensures r.Ok? <==> !Exists(stored)
    ensures r.Err? ==> r.error == OptionsAlreadyExist
    ensures r.Ok? ==> r.value == Some(o)
  {
    if Exists(stored) then Err(OptionsAlreadyExist) else Ok(Some(o))
  }

  /** Fails when no options are stored; otherwise exactly the stored type and currency. */
  function GetExisting(stored: Option<Options>): (r: Result<Options>)
    ensures r.Ok? <==> Exists(stored)
    ensures r.Err? ==> r.error == OptionsNotPresent
    ensures r.Ok? ==> Some(r.value) == stored
  {
    match stored
    case None => Err(OptionsNotPresent)
    case Some(o) => Ok(o)
  }

  /** Options are set once: a second create fails and a read returns what the first stored. */
  lemma SetOnce(o: Options, o2: Options)
    ensures Create(None, o).Ok?
    ensures Create(Create(None, o).value, o2) == Err(OptionsAlreadyExist)
    ensures GetExisting(Create(None, o).value) == Ok(o)
  {
  }
}
