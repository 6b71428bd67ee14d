/** The HTTP views: registration, doctor and patient login, logout, the patient
    collection (list and create) and the patient profile lookup. Each view is a
    decision over the identity store; status codes become `Error` constructors. */
module Views {
  import opened Wrappers
  import opened Credentials
  import opened Accounts
  import opened Serializers

  /** A request field as Python's truthiness sees it: present and non-empty. */
  predicate Supplied(field: Option<string>) {
    field.Some? && field.value != ""
  }

  /** The caller passes the `IsAuthenticated` and `IsDoctor` permission checks. */
  predicate IsDoctorAccount(store: IdentityStore, u: string)
    reads store
  {
    u in store.accounts && store.accounts[u].role == Doctor
  }

  /** A successful login: the account's username and the freshly minted pair. */
  datatype Session = Session(username: string, tokens: TokenPair)

  /** `DoctorLoginView.post`. Four stages, each with its own error: both fields
      present, an account with that SLMC ID, a matching password, the DOCTOR role.
      `minted` is the pair the token service would sign for the account. */
  function DoctorLogin(store: IdentityStore, slmcId: Option<string>, password: Option<string>,
                       minted: TokenPair): (r: Result<Session, Error>)
    reads store
    requires store.Valid()
    ensures !Supplied(slmcId) || !Supplied(password) ==> r == Err(DoctorCredentialsRequired)
    ensures r == Err(InvalidSlmcId) <==>
              Supplied(slmcId) && Supplied(password) &&
              forall u :: u in store.accounts ==> store.accounts[u].slmcId != slmcId.value
    ensures r == Err(InvalidPassword) <==>
              Supplied(slmcId) && Supplied(password) &&
              exists u :: u in store.accounts && store.accounts[u].slmcId == slmcId.value &&
                          !store.CheckPassword(store.accounts[u], password.value)
    ensures r == Err(NotADoctor) <==>
              Supplied(slmcId) && Supplied(password) &&
              exists u :: u in store.accounts && store.accounts[u].slmcId == slmcId.value &&
                          store.CheckPassword(store.accounts[u], password.value) &&
                          store.accounts[u].role != Doctor
    ensures r.Ok? <==>
              Supplied(slmcId) && Supplied(password) &&
              exists u :: u in store.accounts && store.accounts[u].slmcId == slmcId.value &&
                          store.CheckPassword(store.accounts[u], password.value) &&
                          store.accounts[u].role == Doctor
    ensures r.Ok? ==> r.value.tokens == minted && r.value.username in store.accounts &&
                      store.accounts[r.value.username].slmcId == slmcId.value
  {
    if !Supplied(slmcId) || !Supplied(password) then Err(DoctorCredentialsRequired)
    else match store.FindBySlmcId(slmcId.value)
      case None => Err(InvalidSlmcId)
      case Some(u) =>
        if !store.CheckPassword(store.accounts[u], password.value) then Err(InvalidPassword)
        else if store.accounts[u].role != Doctor then Err(NotADoctor)
        else Ok(Session(u, minted))
  }

  /** `PatientLoginView.post`. Missing fields have their own error; a failed
      authentication and a non-PATIENT account give the same one. */
  function PatientLogin(store: IdentityStore, username: Option<string>, password: Option<string>,
                        minted: TokenPair): (r: Result<Session, Error>)
    reads store
    ensures !Supplied(username) || !Supplied(password) ==> r == Err(PatientCredentialsRequired)
    ensures Supplied(username) && Supplied(password) && r.Err? ==> r.error == InvalidCredentials
    ensures r.Ok? <==>
              Supplied(username) && Supplied(password) && username.value in store.accounts &&
              store.CheckPassword(store.accounts[username.value], password.value) &&
              store.accounts[username.value].isActive &&
              store.accounts[username.value].role == Patient
    ensures r.Ok? ==> r.value == Session(username.value, minted)
  {
    if !Supplied(username) || !Supplied(password) then Err(PatientCredentialsRequired)
    else match store.Authenticate(username.value, password.value)
      case None => Err(InvalidCredentials)
      case Some(user) =>
        if user.role != Patient then Err(InvalidCredentials)
        else Ok(Session(username.value, minted))
  }

  /** `LogoutView.post`: a missing token is refused; otherwise the token is
      blacklisted and nothing else changes. */
  method Logout(store: IdentityStore, refreshToken: Option<Token>) returns (r: Result<(), Error>)
    modifies store`blacklist
    ensures !Supplied(refreshToken) ==> r == Err(RefreshTokenRequired) &&
                                        store.blacklist == old(store.blacklist)
    ensures Supplied(refreshToken) ==> store.blacklist == old(store.blacklist) + {refreshToken.value}
    ensures Supplied(refreshToken) && refreshToken.value !in old(store.blacklist) ==> r == Ok(())
    ensures old(store.blacklist) <= store.blacklist
  {
    if Supplied(refreshToken) {
      store.blacklist := store.blacklist + {refreshToken.value};
      return Ok(());
    }
    r := Err(RefreshTokenRequired);
  }

  /** The answer to a successful registration. */
  datatype Registered = Registered(userType: Role, tokens: TokenPair)

  /** `RegisterView.post`: validation, the serializer's save, then a token pair
      for the new doctor. */
  method Register(store: IdentityStore, data: RegistrationInput, uuidHex: string, minted: TokenPair)
    returns (r: Result<Registered, Error>)
    requires store.Valid() && IsUuidHex(uuidHex)
    modifies store`accounts
    ensures store.Valid()
    ensures Validate(data).Err? ==> r == Err(Validate(data).error) &&
                                    store.accounts == old(store.accounts)
    ensures var acc := RegisteredAccount(data, DoctorUsername(uuidHex), store.hash(data.password));
            r.Ok? <==> Validate(data).Ok? && !Collides(old(store.accounts), acc)
    ensures r.Ok? ==>
              var acc := RegisteredAccount(data, DoctorUsername(uuidHex), store.hash(data.password));
              r.value == Registered(Doctor, minted) &&
              store.accounts == old(store.accounts)[acc.username := acc]
    ensures r.Ok? && data.slmcId != "" && data.password != "" ==>
              forall m :: DoctorLogin(store, Some(data.slmcId), Some(data.password), m) ==
                          Ok(Session(DoctorUsername(uuidHex), m))
    ensures r.Err? ==> store.accounts == old(store.accounts)
    ensures Validate(data).Ok? && r.Err? ==> r.error == UniquenessConflict
  {
    var valid := Validate(data);
    if valid.Err? {
      return Err(valid.error);
    }
    var user := RegisterDoctor(store, data, uuidHex);
    if user.Err? {
      return Err(user.error);
    }
    r := Ok(Registered(user.value.role, minted));
    var u := user.value.username;
    assert store.accounts[u].slmcId == data.slmcId;
    assert store.FindBySlmcId(data.slmcId) == Some(u);
  }

  /** `PatientViewSet.get_queryset`: exactly the records the caller supervises. */
  function ListPatients(store: IdentityStore, caller: string): (r: map<string, PatientRecord>)
    reads store
    requires IsDoctorAccount(store, caller)
    ensures forall u :: u in r <==> u in store.patients && store.patients[u].doctor == caller
    ensures forall u :: u in r ==> r[u] == store.patients[u]
  {
    map u | u in store.patients && store.patients[u].doctor == caller :: store.patients[u]
  }

  /** Two doctors never see a record in common. */
  lemma ListsOfDistinctDoctorsAreDisjoint(store: IdentityStore, d1: string, d2: string)
    requires IsDoctorAccount(store, d1) && IsDoctorAccount(store, d2) && d1 != d2
    ensures ListPatients(store, d1).Keys !! ListPatients(store, d2).Keys
  {
  }

  /** A patient creation request of the collection view; absent names take
      the view's defaults. */
  datatype DirectInput = DirectInput(
    firstName: Option<string>,
    lastName: Option<string>,
    clinical: ClinicalFields)

  /** The answer to a direct creation: the generated username and password and
      the serialized record. */
  datatype Provisioned = Provisioned(username: string, password: string, patient: Representation)

  /** The email the direct path always gives a new patient. */
  function PatientEmail(username: string): (email: string)
    ensures |email| == |username| + 12 && email[..|username|] == username
    ensures email[|username|..] == "@example.com"
  {
    username + "@example.com"
  }

  /** `PatientViewSet.create`: a `pat_` username, an eight-character password, a
      PATIENT account with a `PAT-` SLMC ID and the email `<username>@example.com`
      whatever the request says, then a record supervised by the caller. The
      serialized record carries no generated credentials; the response does. */
  method ProvisionPatientDirect(store: IdentityStore, caller: string, data: DirectInput,
                                usernameUuid: string, slmcUuid: string, picks: seq<nat>)
    returns (r: Result<Provisioned, Error>)
    requires store.Valid() && IsDoctorAccount(store, caller)
    requires IsUuidHex(usernameUuid) && IsUuidHex(slmcUuid) && IsPasswordPicks(picks)
    modifies store`accounts, store`patients
    ensures store.Valid()
    ensures var username := GenerateUsername(usernameUuid);
            var password := GeneratePassword(picks);
            var acc := store.UserFor(username, PatientEmail(username),
                                     data.firstName.GetOr("Patient"), data.lastName.GetOr(""),
                                     PatientSlmcId(slmcUuid), Some(password), Patient);
            var record := PatientRecord(caller, data.clinical);
            (r.Ok? <==> !Collides(old(store.accounts), acc)) &&
            (r.Ok? ==>
               r.value == Provisioned(username, password,
                                      ToRepresentation(PatientInstance(username, record, None))) &&
               username !in old(store.accounts) && username !in old(store.patients) &&
               store.accounts == old(store.accounts)[username := acc] &&
               store.patients == old(store.patients)[username := record])
    ensures r.Ok? ==> IsLoginHandle("pat", r.value.username) &&
                      IsPatientSlmcId(store.accounts[r.value.username].slmcId) &&
                      r.value.patient.generatedUsername == "" && r.value.patient.generatedPassword == ""
    ensures r.Ok? ==> forall m :: PatientLogin(store, Some(r.value.username), Some(r.value.password), m) ==
                                  Ok(Session(r.value.username, m))
    ensures r.Err? ==> r.error == UniquenessConflict &&
                       store.accounts == old(store.accounts) && store.patients == old(store.patients)
  {
    var username := GenerateUsername(usernameUuid);
    var password := GeneratePassword(picks);
    var user := store.CreateUser(username, PatientEmail(username),
                                 data.firstName.GetOr("Patient"), data.lastName.GetOr(""),
                                 PatientSlmcId(slmcUuid), Some(password), Patient);
    if user.Err? {
      return Err(user.error);
    }
    var record := PatientRecord(caller, data.clinical);
    store.AddPatientRecord(username, record);
    r := Ok(Provisioned(username, password, ToRepresentation(PatientInstance(username, record, None))));
  }

  /** The answer to a profile lookup. */
  datatype Profile = Profile(username: string, patientData: Representation)

  /** `PatientProfileView.get`: NotFound when no record has that username,
      decided before ownership; Forbidden when another doctor supervises it. */
  function PatientProfile(store: IdentityStore, caller: string, username: string): (r: Result<Profile, Error>)
    reads store
    requires caller in store.accounts
    ensures r == Err(PatientNotFound) <==> username !in store.patients
    ensures r == Err(UnauthorizedAccess) <==>
              username in store.patients && store.patients[username].doctor != caller
    ensures r.Ok? <==> username in store.patients && store.patients[username].doctor == caller
    ensures r.Ok? ==> r.value.username == username &&
                      r.value.patientData.clinical == store.patients[username].clinical &&
                      r.value.patientData.generatedUsername == "" &&
                      r.value.patientData.generatedPassword == ""
  {
    if username !in store.patients then Err(PatientNotFound)
    else
      var record := store.patients[username];
      if record.doctor != caller then Err(UnauthorizedAccess)
      else Ok(Profile(username, ToRepresentation(PatientInstance(username, record, None))))
  }

  /** For a doctor, the profile lookup succeeds on exactly the records the list
      shows, and shows the same clinical data. */
  lemma ProfileAgreesWithList(store: IdentityStore, caller: string, username: string)
    requires IsDoctorAccount(store, caller)
    ensures PatientProfile(store, caller, username).Ok? <==> username in ListPatients(store, caller)
    ensures PatientProfile(store, caller, username).Ok? ==>
              PatientProfile(store, caller, username).value.patientData.clinical ==
              ListPatients(store, caller)[username].clinical
  {
  }
}
