/** The identity store: accounts, patient records and the refresh-token
    blacklist, with the user manager's `create_user` and `create_superuser`. */
module Accounts {
  import opened Wrappers

  datatype Role = Doctor | Patient

  /** What `set_password` leaves in an account: the hash of the raw password,
      or the unusable marker when no password is given. */
  datatype PasswordHash = Usable(digest: string) | Unusable

  datatype Account = Account(
    username: string,
    email: string,
    firstName: string,
    lastName: string,
    slmcId: string,
    password: PasswordHash,
    role: Role,
    isActive: bool,
    isStaff: bool,
    isSuperuser: bool)

  /** The free-form clinical fields of a patient profile; `None` is a field the
      request did not carry (`data.get(...)` returned `None`). */
  datatype ClinicalFields = ClinicalFields(
    age: Option<int>,
    gender: Option<string>,
    address: Option<string>,
    emergencyContact: Option<string>,
    medicalHistory: Option<string>)

  /** A patient profile. The store keys it by its patient account's username;
      `doctor` is the username of the supervising doctor. */
  datatype PatientRecord = PatientRecord(doctor: string, clinical: ClinicalFields)

  /** Tokens are opaque strings minted by the token service. */
  type Token = string

  datatype TokenPair = TokenPair(access: Token, refresh: Token)

  /** One constructor per distinct failure response of the backend. */
  datatype Error =
    | DoctorCredentialsRequired   // doctor login: "SLMC ID and password required."
    | InvalidSlmcId               // doctor login: no account has that SLMC ID
    | InvalidPassword             // doctor login: the password does not match
    | NotADoctor                  // doctor login: the account is not a doctor's
    | PatientCredentialsRequired  // patient login: "Username and password required."
    | InvalidCredentials          // patient login: every other failure
    | RefreshTokenRequired        // logout without a token
    | PasswordMismatch            // registration: confirmation differs
    | OnlyDoctorsCanRegister      // registration: declared role is not DOCTOR
    | EmailRequired               // create_user: empty email
    | SlmcIdRequired              // create_user: empty SLMC ID
    | UniquenessConflict          // save: username, email or SLMC ID taken
    | PatientNotFound             // profile lookup: no such patient (404)
    | UnauthorizedAccess          // profile lookup: another doctor's patient (403)

  /** Two accounts clash when they share a username, an email or an SLMC ID,
      the fields the database declares unique. */
  predicate Clash(a: Account, b: Account) {
    a.username == b.username || a.email == b.email || a.slmcId == b.slmcId
  }

  predicate Collides(accounts: map<string, Account>, acc: Account) {
    exists u :: u in accounts && Clash(accounts[u], acc)
  }

  /** Every account is filed under its own username, and no two accounts share
      an email or an SLMC ID. */
  ghost predicate UniqueIdentifiers(accounts: map<string, Account>) {
    (forall u :: u in accounts ==> accounts[u].username == u) &&
    (forall u, v :: u in accounts && v in accounts && u != v ==>
       accounts[u].email != accounts[v].email && accounts[u].slmcId != accounts[v].slmcId)
  }

  /** An insert that clashes with no stored account keeps the identifiers unique. */
  lemma InsertKeepsIdentifiersUnique(accounts: map<string, Account>, acc: Account)
    requires UniqueIdentifiers(accounts) && !Collides(accounts, acc)
    ensures acc.username !in accounts
    ensures UniqueIdentifiers(accounts[acc.username := acc])
  {
  }

  /** Changing the flags of a stored account keeps the identifiers unique. */
  lemma ReplaceKeepsIdentifiersUnique(accounts: map<string, Account>, u: string, acc: Account)
    requires UniqueIdentifiers(accounts) && u in accounts
    requires acc.username == u && acc.email == accounts[u].email && acc.slmcId == accounts[u].slmcId
    ensures UniqueIdentifiers(accounts[u := acc])
  {
  }

  class IdentityStore {
    var accounts: map<string, Account>
    var patients: map<string, PatientRecord>
    var blacklist: set<Token>

    /** The password hasher behind `set_password`/`check_password`. */
    const hash: string -> string
    /** `BaseUserManager.normalize_email`, left unspecified. */
    const normalizeEmail: string -> string

    /** The store's invariant: unique identifiers, every record belongs to a
        PATIENT account and is supervised by a DOCTOR account. */
    ghost predicate Valid()
      reads this
    {
      UniqueIdentifiers(accounts) &&
      forall p :: p in patients ==>
        p in accounts && accounts[p].role == Patient &&
        patients[p].doctor in accounts && accounts[patients[p].doctor].role == Doctor
    }

    constructor (hash: string -> string, normalizeEmail: string -> string)
      ensures Valid()
      ensures accounts == map[] && patients == map[] && blacklist == {}
      ensures this.hash == hash && this.normalizeEmail == normalizeEmail
    {
      accounts, patients, blacklist := map[], map[], {};
      this.hash, this.normalizeEmail := hash, normalizeEmail;
    }

    /** `set_password`: the hash of the password, or unusable for `None`. */
    function SetPassword(password: Option<string>): (h: PasswordHash)
      ensures h.Usable? <==> password.Some?
      ensures password.Some? ==> h.digest == hash(password.value)
    {
      match password
      case Some(raw) => Usable(hash(raw))
      case None => Unusable
    }

    /** `check_password`: the raw password hashes to the stored digest. */
    predicate CheckPassword(acc: Account, raw: string) {
      acc.password == Usable(hash(raw))
    }

    /** The account `create_user` builds before saving it: a normalized email,
        the hashed password, active, neither staff nor superuser. */
    function UserFor(username: string, email: string, firstName: string, lastName: string,
                     slmcId: string, password: Option<string>, role: Role): (acc: Account)
      ensures acc.username == username && acc.firstName == firstName && acc.lastName == lastName
      ensures acc.slmcId == slmcId && acc.role == role
      ensures acc.isActive && !acc.isStaff && !acc.isSuperuser
      ensures acc.email == normalizeEmail(email)
      ensures password.Some? ==> CheckPassword(acc, password.value)
      ensures password.None? ==> forall raw :: !CheckPassword(acc, raw)
    {
      Account(username, normalizeEmail(email), firstName, lastName, slmcId,
              SetPassword(password), role, true, false, false)
    }

    /** `Model.save()` of a new account: refused when it clashes on a unique field. */
    method Insert(acc: Account) returns (r: Result<Account, Error>)
      requires Valid()
      modifies this`accounts
      ensures Valid()
      ensures r.Ok? <==> !Collides(old(accounts), acc)
      ensures r.Ok? ==> r.value == acc && acc.username !in old(accounts) &&
                        accounts == old(accounts)[acc.username := acc]
      ensures r.Err? ==> r.error == UniquenessConflict && accounts == old(accounts)
    {
      if exists u :: u in accounts && Clash(accounts[u], acc) {
        return Err(UniquenessConflict);
      }
      InsertKeepsIdentifiersUnique(accounts, acc);
      accounts := accounts[acc.username := acc];
      r := Ok(acc);
    }

    /** `create_user`: the email check, then the SLMC ID check, then the save. */
    method CreateUser(username: string, email: string, firstName: string, lastName: string,
                      slmcId: string, password: Option<string>, role: Role)
      returns (r: Result<Account, Error>)
      requires Valid()
      modifies this`accounts
      ensures Valid()
      ensures email == "" ==> r == Err(EmailRequired)
      ensures email != "" && slmcId == "" ==> r == Err(SlmcIdRequired)
      ensures var acc := UserFor(username, email, firstName, lastName, slmcId, password, role);
              (r.Ok? <==> email != "" && slmcId != "" && !Collides(old(accounts), acc)) &&
              (r.Ok? ==> r.value == acc && username !in old(accounts) &&
                         accounts == old(accounts)[username := acc])
      ensures r.Err? ==> accounts == old(accounts)
      ensures email != "" && slmcId != "" && r.Err? ==> r.error == UniquenessConflict
    {
      if email == "" {
        return Err(EmailRequired);
      }
      if slmcId == "" {
        return Err(SlmcIdRequired);
      }
      var user := UserFor(username, email, firstName, lastName, slmcId, password, role);
      r := Insert(user);
    }

    /** `create_superuser`: `create_user`, then both staff flags set and saved again. */
    method CreateSuperuser(username: string, email: string, firstName: string, lastName: string,
                           slmcId: string, password: string, role: Role)
      returns (r: Result<Account, Error>)
      requires Valid()
      modifies this`accounts
      ensures Valid()
      ensures email == "" ==> r == Err(EmailRequired)
      ensures email != "" && slmcId == "" ==> r == Err(SlmcIdRequired)
      ensures var acc := UserFor(username, email, firstName, lastName, slmcId, Some(password), role);
              (r.Ok? <==> email != "" && slmcId != "" && !Collides(old(accounts), acc)) &&
              (r.Ok? ==> r.value == acc.(isStaff := true, isSuperuser := true) &&
                         username !in old(accounts) &&
                         accounts == old(accounts)[username := r.value])
      ensures r.Err? ==> accounts == old(accounts)
      ensures email != "" && slmcId != "" && r.Err? ==> r.error == UniquenessConflict
    {
      r := CreateUser(username, email, firstName, lastName, slmcId, Some(password), role);
      if r.Ok? {
        var user := r.value.(isStaff := true, isSuperuser := true);
        ReplaceKeepsIdentifiersUnique(accounts, username, user);
        accounts := accounts[username := user];
        r := Ok(user);
      }
    }

    /** `Patient.objects.create` for a fresh PATIENT account and a DOCTOR. */
    method AddPatientRecord(username: string, record: PatientRecord)
      requires Valid()
      requires username in accounts && accounts[username].role == Patient && username !in patients
      requires record.doctor in accounts && accounts[record.doctor].role == Doctor
      modifies this`patients
      ensures Valid()
      ensures patients == old(patients)[username := record]
    {
      patients := patients[username := record];
    }

    /** `User.objects.get(slmc_id=...)`: the one account with that SLMC ID. */
    function FindBySlmcId(slmcId: string): (r: Option<string>)
      reads this
      requires Valid()
      ensures r.Some? ==> r.value in accounts && accounts[r.value].slmcId == slmcId
      ensures forall u :: u in accounts && accounts[u].slmcId == slmcId ==> r == Some(u)
    {
      if exists u :: u in accounts && accounts[u].slmcId == slmcId then
        var u :| u in accounts && accounts[u].slmcId == slmcId;
        Some(u)
      else
        None
    }

    /** `authenticate(username=..., password=...)` with Django's model backend:
        the account filed under that username, if its password matches and it is
        active. */
    function Authenticate(username: string, password: string): (r: Option<Account>)
      reads this
      ensures r.Some? <==> username in accounts && CheckPassword(accounts[username], password) &&
                           accounts[username].isActive
      ensures r.Some? ==> r.value == accounts[username]
    {
      if username in accounts && CheckPassword(accounts[username], password) &&
         accounts[username].isActive
      then Some(accounts[username])
      else None
    }
  }
}
