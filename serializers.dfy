/** The registration and patient serializers: validation of doctor
    self-registration, its `create`, the patient serializer's `create` and its
    representation. */
module Serializers {
  import opened Wrappers
  import opened Credentials
  import opened Accounts

  /** The fields of a self-registration request; `userType` is `None` when the
      request carries no role. */
  datatype RegistrationInput = RegistrationInput(
    firstName: string,
    lastName: string,
    email: string,
    password: string,
    reEnterPassword: string,
    userType: Option<Role>,
    slmcId: string)

  /** `UserRegistrationSerializer.validate`: the password check comes first, the
      role check second. */
  function Validate(data: RegistrationInput): (r: Result<RegistrationInput, Error>)
    ensures data.password != data.reEnterPassword ==> r == Err(PasswordMismatch)
    ensures data.userType != Some(Doctor) ==> r.Err?
    ensures data.password == data.reEnterPassword && data.userType != Some(Doctor) ==>
              r == Err(OnlyDoctorsCanRegister)
    ensures r.Ok? <==> data.password == data.reEnterPassword && data.userType == Some(Doctor)
    ensures r.Ok? ==> r.value == data
  {
    if data.password != data.reEnterPassword then Err(PasswordMismatch)
    else if data.userType != Some(Doctor) then Err(OnlyDoctorsCanRegister)
    else Ok(data)
  }

  /** The account a registration saves: the given identity fields, the role
      DOCTOR, the generated username and only the digest of the password (the
      confirmation is dropped); the model's defaults for the flags. */
  function RegisteredAccount(data: RegistrationInput, username: string, digest: string): (acc: Account)
    ensures acc.role == Doctor && acc.username == username && acc.password == Usable(digest)
    ensures acc.email == data.email && acc.slmcId == data.slmcId
    ensures acc.firstName == data.firstName && acc.lastName == data.lastName
    ensures acc.isActive && !acc.isStaff && !acc.isSuperuser
  {
    Account(username, data.email, data.firstName, data.lastName, data.slmcId,
            Usable(digest), Doctor, true, false, false)
  }

  /** `UserRegistrationSerializer.create`: a `doc_` username, the hashed password,
      and a save that fails on a clash. */
  method RegisterDoctor(store: IdentityStore, data: RegistrationInput, uuidHex: string)
    returns (r: Result<Account, Error>)
    requires store.Valid() && Validate(data).Ok? && IsUuidHex(uuidHex)
    modifies store`accounts
    ensures store.Valid()
    ensures var acc := RegisteredAccount(data, DoctorUsername(uuidHex), store.hash(data.password));
            (r.Ok? <==> !Collides(old(store.accounts), acc)) &&
            (r.Ok? ==> r.value == acc && acc.username !in old(store.accounts) &&
                       store.accounts == old(store.accounts)[acc.username := acc])
    ensures r.Ok? ==> IsLoginHandle("doc", r.value.username) && store.CheckPassword(r.value, data.password)
    ensures r.Err? ==> r.error == UniquenessConflict && store.accounts == old(store.accounts)
  {
    var username := DoctorUsername(uuidHex);
    var user := RegisteredAccount(data, username, store.hash(data.password));
    r := store.Insert(user);
  }

  /** The write-side fields of the patient serializer. */
  datatype PatientInput = PatientInput(
    firstName: string,
    lastName: string,
    email: string,
    clinical: ClinicalFields)

  datatype GeneratedCredentials = GeneratedCredentials(username: string, password: string)

  /** A patient object as the serializer holds it: the record, the username of
      its account and, when `create` attached them, the generated credentials. */
  datatype PatientInstance = PatientInstance(
    username: string,
    record: PatientRecord,
    generated: Option<GeneratedCredentials>)

  /** The read-side fields of the patient serializer. */
  datatype Representation = Representation(
    clinical: ClinicalFields,
    generatedUsername: string,
    generatedPassword: string)

  /** `PatientSerializer.to_representation`: the clinical fields, and the
      attached credentials or empty strings. */
  function ToRepresentation(instance: PatientInstance): (rep: Representation)
    ensures rep.clinical == instance.record.clinical
    ensures instance.generated.Some? ==>
              rep.generatedUsername == instance.generated.value.username &&
              rep.generatedPassword == instance.generated.value.password
    ensures instance.generated.None? ==> rep.generatedUsername == "" && rep.generatedPassword == ""
  {
    match instance.generated
    case Some(g) => Representation(instance.record.clinical, g.username, g.password)
    case None => Representation(instance.record.clinical, "", "")
  }

  /** `PatientSerializer.create`: a PATIENT account whose SLMC ID is its generated
      username, with the email and names of the request, then a record supervised
      by the caller carrying the clinical fields as given. */
  method ProvisionPatientSerializer(store: IdentityStore, caller: string, data: PatientInput,
                                    uuidHex: string, picks: seq<nat>)
    returns (r: Result<PatientInstance, Error>)
    requires store.Valid()
    requires caller in store.accounts && store.accounts[caller].role == Doctor
    requires IsUuidHex(uuidHex) && IsPasswordPicks(picks)
    modifies store`accounts, store`patients
    ensures store.Valid()
    ensures var username := GenerateUsername(uuidHex);
            var password := GeneratePassword(picks);
            var acc := store.UserFor(username, data.email, data.firstName, data.lastName,
                                     username, Some(password), Patient);
            (data.email == "" ==> r == Err(EmailRequired)) &&
            (r.Ok? <==> data.email != "" && !Collides(old(store.accounts), acc)) &&
            (r.Ok? ==>
               r.value == PatientInstance(username, PatientRecord(caller, data.clinical),
                                          Some(GeneratedCredentials(username, password))) &&
               username !in old(store.accounts) && username !in old(store.patients) &&
               store.accounts == old(store.accounts)[username := acc] &&
               store.patients == old(store.patients)[username := r.value.record])
    ensures r.Ok? ==> store.accounts[r.value.username].slmcId == r.value.username
    ensures r.Ok? ==> var rep := ToRepresentation(r.value);
                      IsLoginHandle("pat", rep.generatedUsername) &&
                      store.Authenticate(rep.generatedUsername, rep.generatedPassword).Some?
    ensures r.Err? ==> store.accounts == old(store.accounts) && store.patients == old(store.patients)
    ensures data.email != "" && r.Err? ==> r.error == UniquenessConflict
  {
    var username := GenerateUsername(uuidHex);
    var password := GeneratePassword(picks);
    var user := store.CreateUser(username, data.email, data.firstName, data.lastName,
                                 username, Some(password), Patient);
    if user.Err? {
      return Err(user.error);
    }
    var record := PatientRecord(caller, data.clinical);
    store.AddPatientRecord(username, record);
    r := Ok(PatientInstance(username, record, Some(GeneratedCredentials(username, password))));
  }
}
