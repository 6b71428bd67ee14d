# Dementia-care backend: account provisioning and credentials

A Dafny model of the account and session core of a clinical-care backend. The
backend has two kinds of account: doctors, who register themselves, and
patients, whom a doctor provisions. It issues token pairs at login and
blacklists refresh tokens at logout.

The model is built around one identity store, the class
`Accounts.IdentityStore`. The store holds:

- `accounts`: accounts keyed by username;
- `patients`: patient records keyed by the username of their patient account,
  each naming its supervising doctor;
- `blacklist`: the set of blacklisted refresh tokens.

Its invariant `Valid()` says two things. First, no two accounts share a
username, an email or an SLMC ID. Second, every record belongs to a PATIENT
account and is supervised by a DOCTOR account. Every operation that changes the
store keeps this invariant.

Modules follow the source files:

- `Credentials`: handle, password and synthetic-ID generators.
- `Accounts`: the user manager and the store.
- `Serializers`: registration validation and creation, and the patient
  serializer.
- `Views`: the login, logout, registration, patient-collection and profile
  views.

Random material is passed in as parameters. `uuid.uuid4().hex` becomes a
32-character lowercase-hex string with uuid4's fixed version and variant digits, and the model takes the same prefixes the
source takes. `random.choices(..., k=8)` becomes eight indices into
`ascii_letters + digits`. Two more pieces are `const` function fields of the
store whose behaviour is left open: the password hasher and
`normalize_email`. `check_password` compares digests. The token pair a login
would sign is also passed in.

In these points the model follows the code's behaviour:

- Doctor login returns three distinguishable errors: unknown SLMC ID, wrong
  password, not a doctor.
- The direct provisioning path always overrides the email with
  `<username>@example.com`, even when the request supplies one.
- Patient provisioning has no transaction.
- The profile view asks only for an authenticated caller, not for a doctor.
- A second logout with the same token has no outcome of its own in the code.

The accounts model that `views.py` imports (`username`, `user_type`, `Patient`)
is not part of this model. Its account fields are inferred from how
`views.py` and `serializers.py` use them. The uniqueness facts and the default
flags come from `myproject/users/models.py`.

## Model

| member | source | states |
|---|---|---|
| `Credentials.Upper` | dementia_backend/users/views.py:118 | upper-casing keeps the length, maps each ASCII character by ASCII upper-case, and turns lowercase hex into uppercase hex |
| `Credentials.LoginHandle` | dementia_backend/users/serializers.py:50-51 | `<prefix>_` plus six hex digits has the handle shape, and its suffix is the first six digits of the uuid |
| `Credentials.LoginHandleOnto` | dementia_backend/users/serializers.py:50-51 | every string of the handle shape is produced by some uuid, so the generator's range is exactly the handle shape |
| `Credentials.GenerateUsername` | dementia_backend/users/serializers.py:50-51 | a patient username is `pat_` plus six lowercase hex digits, ten characters in all |
| `Credentials.DoctorUsername` | dementia_backend/users/serializers.py:38-39 | a registered doctor's username is `doc_` plus six lowercase hex digits |
| `Credentials.DoctorAndPatientHandlesDiffer` | dementia_backend/users/serializers.py:39-51 | a doctor handle never equals a patient handle |
| `Credentials.PatientSlmcId` | dementia_backend/users/views.py:118 | the direct path's SLMC ID is `PAT-` plus eight uppercase hex digits |
| `Credentials.PatientSlmcIdInjective` | dementia_backend/users/views.py:118 | two equal synthetic SLMC IDs come from the same eight-digit uuid prefix |
| `Credentials.PatientSlmcIdIsNotHandle` | dementia_backend/users/serializers.py:88 | a `PAT-` SLMC ID of the direct path never equals an SLMC ID of the serializer path, which is a `pat_` handle |
| `Credentials.GeneratePassword` | dementia_backend/users/serializers.py:54-55 | a generated password has exactly eight characters, each an ASCII letter or digit |
| `Credentials.GeneratePasswordOnto` | dementia_backend/users/serializers.py:54-55 | every eight-character string of letters and digits can be generated |
| `Accounts.InsertKeepsIdentifiersUnique` | myproject/users/models.py:30-33 | adding an account that clashes with none keeps emails and SLMC IDs unique, and its username is new |
| `Accounts.ReplaceKeepsIdentifiersUnique` | myproject/users/models.py:22-27 | re-saving an account with the same email and SLMC ID keeps them unique |
| `Accounts.IdentityStore.SetPassword` | myproject/users/models.py:18 | a given password is stored only as its digest; no password gives an unusable one |
| `Accounts.IdentityStore.UserFor` | myproject/users/models.py:11-18 | the account create_user builds carries the given username, names, SLMC ID and role, the normalized email, is active and neither staff nor superuser, and accepts the given password |
| `Accounts.IdentityStore.Insert` | myproject/users/models.py:29-36 | a save succeeds exactly when no stored account shares the username, email or SLMC ID; on success it adds exactly that account, on failure it changes nothing |
| `Accounts.IdentityStore.CreateUser` | myproject/users/models.py:5-20 | an empty email fails first; then an empty SLMC ID fails; then a clash fails; otherwise exactly the built account is added |
| `Accounts.IdentityStore.CreateSuperuser` | myproject/users/models.py:22-27 | same checks, in the same order, and identity fields as create_user, a clash failing with a conflict, with staff and superuser both set on the stored account |
| `Accounts.IdentityStore.AddPatientRecord` | dementia_backend/users/views.py:124-132 | creating a record for a fresh PATIENT account and a DOCTOR adds exactly that record and keeps the invariant |
| `Accounts.IdentityStore.FindBySlmcId` | dementia_backend/users/views.py:42-45 | the lookup finds the one account with that SLMC ID when there is one, and finds nothing otherwise |
| `Accounts.IdentityStore.Authenticate` | dementia_backend/users/views.py:70 | authentication succeeds exactly when the username's account exists, the password matches and the account is active |
| `Serializers.Validate` | dementia_backend/users/serializers.py:27-32 | a password mismatch fails first; any role other than DOCTOR then fails, whatever the other fields are; the data passes exactly when both checks hold |
| `Serializers.RegisteredAccount` | dementia_backend/users/serializers.py:34-44 | the registered account has role DOCTOR, the given identity fields and only the digest of the password |
| `Serializers.RegisterDoctor` | dementia_backend/users/serializers.py:34-44 | registration adds exactly one account with a `doc_` handle and the hashed password, or fails with a conflict and changes nothing |
| `Serializers.ToRepresentation` | dementia_backend/users/serializers.py:105-109 | the representation shows the clinical fields, plus the attached credentials or empty strings when none are attached |
| `Serializers.ProvisionPatientSerializer` | dementia_backend/users/serializers.py:73-103 | the serializer path adds one PATIENT account and one record supervised by the caller; the SLMC ID equals the username; email and names come from the request; clinical fields are copied; the returned credentials authenticate the new account; an empty email fails with EmailRequired, and any other failure is a uniqueness conflict that changes nothing |
| `Views.DoctorLogin` | dementia_backend/users/views.py:35-58 | missing fields fail before the store is consulted; then an unknown SLMC ID, a wrong password and a non-doctor account each fail with their own error, in that order; tokens are issued exactly when all checks pass |
| `Views.PatientLogin` | dementia_backend/users/views.py:63-80 | missing fields fail with their own error; any other failure, bad credentials or the wrong role, is the same InvalidCredentials; success means an active PATIENT account with that password |
| `Views.Logout` | dementia_backend/users/views.py:84-90 | without a token it fails and leaves the blacklist unchanged; with a token, exactly that token is added; the blacklist never shrinks |
| `Views.Register` | dementia_backend/users/views.py:19-30 | validation errors are returned unchanged; success adds one doctor account, answers with role DOCTOR and the minted pair, and that doctor can then log in with the SLMC ID and password; after validation passes, a failure is a uniqueness conflict that changes nothing |
| `Views.ListPatients` | dementia_backend/users/views.py:100-101 | the list holds exactly the records the caller supervises |
| `Views.ListsOfDistinctDoctorsAreDisjoint` | dementia_backend/users/views.py:100-101 | two different doctors' lists share no record |
| `Views.PatientEmail` | dementia_backend/users/views.py:115 | the direct path's email is the username followed by `@example.com` |
| `Views.ProvisionPatientDirect` | dementia_backend/users/views.py:103-140 | the direct path adds one PATIENT account and one record supervised by the caller; the username is `pat_` plus six hex digits; the email is `<username>@example.com` whatever the request says; the SLMC ID is `PAT-` plus eight uppercase hex digits; names default to `Patient` and empty; the returned username and password log in as that patient; on a conflict nothing changes |
| `Views.PatientProfile` | dementia_backend/users/views.py:145-158 | no record gives NotFound, decided before ownership; another doctor's record gives Forbidden; the lookup succeeds exactly when the record exists and the caller supervises it, and then the result is the record's data |
| `Views.ProfileAgreesWithList` | dementia_backend/users/views.py:145-158 | for a doctor, a profile lookup succeeds exactly on the records in that doctor's list, with the same clinical data |

## Left out

- HTTP transport is not modelled. Status codes and response bodies become `Error` constructors and result datatypes.
- DRF field-level validation is not modelled: required fields, email format, `user_type` choices, and the unique validators DRF runs before `validate`. Uniqueness is enforced when the account is saved, as `UniquenessConflict`.
- The database `IntegrityError` on a clash is not caught by the source, so the HTTP answer would be a server error. The model returns `UniquenessConflict` instead.
- `normalize_email` is an unspecified function of the store. The direct path's stored email is therefore the normalized form of `<username>@example.com`.
- Password hashing is an unspecified function. Digest collisions are possible, as with any hash.
- Token signing, the token contents, token expiry and the outstanding-token bookkeeping of the token library are not modelled. A login returns the pair it is given.
- Token refresh lives in the token library, not in the views modelled here. So the claim that a blacklisted token cannot mint new tokens is modelled only as blacklist membership.
- Views.Logout: says nothing about the result when the token is already blacklisted, because that decision sits inside the token library; the model also treats every non-empty token as well-formed, although the library would reject a malformed or expired one.
- Atomicity is not modelled. The source has no transaction around "create account, then create record". In this sequential model the record step cannot fail once the account step succeeded, so success means both exist. Crashes between the two steps are not modelled.
- The `IsDoctor` and `IsAuthenticated` permission classes are not part of this model. They become preconditions: the caller is a DOCTOR account for the collection view, and is an account for the profile view.
- `Accounts.IdentityStore.CreateUser` is the `create_user` of `myproject/users/models.py:5-20` extended with a username and a role. That `create_user` takes neither field and would refuse the `username=` and `user_type=` keywords the views and the patient serializer pass, so they call the manager of the account model they import, which is not part of this model. The model assumes that manager keeps the same two checks, an empty email and then an empty SLMC ID; the `EmailRequired` outcome of `Serializers.ProvisionPatientSerializer` rests on that assumption.
- `Accounts.IdentityStore.Authenticate` assumes that the account model imported by the views, which is not part of this model, uses `username` as its `USERNAME_FIELD`. That departs from `myproject/users/models.py:38`, which sets it to `email`; under that model the patient login would look the handle up as an email. Otherwise it is Django's default model backend: look the account up by its `USERNAME_FIELD`, check the password, require the active flag.
- The randomness itself is not modelled: uniform choice, entropy, and the probability of collisions. Only the shapes of the random material are.
- These parts of the account model are not modelled: the `max_length` limits, `__str__`, and the `REQUIRED_FIELDS` metadata (`USERNAME_FIELD` is discussed above).
- The other viewset actions (retrieve, update, destroy) are not modelled. Only the list filter and `create` are part of the core.
- `frontend/src/pages/Home.jsx` is not part of this model. It is a UI page with no backend logic.
