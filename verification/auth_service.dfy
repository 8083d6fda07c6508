/** The in-memory authentication service: a list of users and the user
    currently signed in. Passwords are never checked. */
module AuthService {
  import opened Wrappers
  import opened Seqs

  datatype UserType = CandidateUser | CompanyUser

  datatype User = User(
    id: string,
    name: string,
    email: string,
    kind: UserType,
    skills: Option<seq<string>>,
    company: Option<string>,
    companyDescription: Option<string>)

  datatype LoginCredentials = LoginCredentials(email: string, password: string)

  datatype RegisterData = RegisterData(
    name: string,
    email: string,
    password: string,
    skills: Option<seq<string>>,
    kind: UserType,
    company: Option<string>,
    companyDescription: Option<string>)

  datatype AuthState = AuthState(users: seq<User>, currentUser: Option<User>)

  /** A service call either completes with a new state and an answer, or
      throws with a message and changes nothing. */
  datatype Attempt<T> = Done(state: AuthState, value: T) | Thrown(message: string)

  const UserNotFound: string := "Usuário não encontrado"
  const EmailTaken: string := "E-mail já cadastrado"

  /** No two users share an e-mail address. */
  predicate UniqueEmails(users: seq<User>) {
    forall i, j :: 0 <= i < j < |users| ==> users[i].email != users[j].email
  }

  predicate EmailRegistered(users: seq<User>, email: string) {
    exists i :: 0 <= i < |users| && users[i].email == email
  }

  /** The two built-in users the service starts with. */
  const InitialUsers: seq<User> := [
    User("1", "João Silva", "joao@email.com", CandidateUser,
         Some(["React Native", "TypeScript", "Node.js"]), None, None),
    User("2", "TechCorp", "maria@empresa.com", CompanyUser, None, Some("TechCorp"),
         Some("Empresa líder em soluções tecnológicas inovadoras, focada em transformação digital."))
  ]

  const Initial: AuthState := AuthState(InitialUsers, None)

  function WithEmail(email: string): User -> bool {
    (u: User) => u.email == email
  }

  /** `login`: sign in as the first user with the e-mail, whatever the
      password; throws when no user has it. */
  function Login(st: AuthState, creds: LoginCredentials): (r: Attempt<User>)
    ensures r.Thrown? <==> !EmailRegistered(st.users, creds.email)
    ensures r.Thrown? ==> r.message == UserNotFound
    ensures r.Done? ==> r.state.users == st.users && r.state.currentUser == Some(r.value)
    ensures r.Done? ==> exists i :: 0 <= i < |st.users| && st.users[i] == r.value
                          && r.value.email == creds.email
                          && forall j :: 0 <= j < i ==> st.users[j].email != creds.email
  {
    match Find(st.users, WithEmail(creds.email))
    case None => Thrown(UserNotFound)
    case Some(u) => Done(AuthState(st.users, Some(u)), u)
  }

  /** `register`: append a new user with id `newId` and sign it in; throws
      when the e-mail is already registered. A company's `company` field
      is its own name. */
  function Register(st: AuthState, data: RegisterData, newId: string): (r: Attempt<User>)
    ensures r.Thrown? <==> EmailRegistered(st.users, data.email)
    ensures r.Thrown? ==> r.message == EmailTaken
    ensures r.Done? ==> r.state.users == st.users + [r.value] && r.state.currentUser == Some(r.value)
    ensures r.Done? ==> r.value.id == newId && r.value.name == data.name && r.value.email == data.email
                        && r.value.kind == data.kind && r.value.skills == data.skills
                        && r.value.companyDescription == data.companyDescription
    ensures r.Done? && data.kind == CompanyUser ==> r.value.company == Some(data.name)
    ensures r.Done? && data.kind == CandidateUser ==> r.value.company == data.company
  {
    if Find(st.users, WithEmail(data.email)).Some? then Thrown(EmailTaken)
    else
      var u := User(newId, data.name, data.email, data.kind, data.skills,
                    if data.kind == CompanyUser then Some(data.name) else data.company,
                    data.companyDescription);
      Done(AuthState(st.users + [u], Some(u)), u)
  }

  /** `logout`: nobody is signed in afterwards; the users stay. */
  function Logout(st: AuthState): (st': AuthState)
    ensures st'.currentUser.None? && st'.users == st.users
    ensures !IsAuthenticated(st')
  {
    AuthState(st.users, None)
  }

  /** `getCurrentUser`. */
  function GetCurrentUser(st: AuthState): Option<User> {
    st.currentUser
  }

  /** `isAuthenticated`: someone is signed in. */
  function IsAuthenticated(st: AuthState): (b: bool)
    ensures b <==> GetCurrentUser(st).Some?
  {
    st.currentUser != None
  }

  /** The built-in users have distinct e-mail addresses. */
  lemma InitialUniqueEmails()
    ensures UniqueEmails(Initial.users)
  {
  }

  /** Registration keeps e-mail addresses unique, and login never changes
      the users, so every reachable state has unique e-mails. */
  lemma RegisterKeepsUniqueEmails(st: AuthState, data: RegisterData, newId: string)
    requires UniqueEmails(st.users)
    ensures var r := Register(st, data, newId);
            r.Done? ==> UniqueEmails(r.state.users)
  {
    var r := Register(st, data, newId);
    if r.Done? {
      var us := r.state.users;
      forall i, j | 0 <= i < j < |us|
        ensures us[i].email != us[j].email
      {
        if j == |st.users| {
          assert us[i] == st.users[i];
        }
      }
    }
  }

  /** After a successful registration the new user can log in, and login
      signs in exactly that user. */
  lemma RegisterThenLogin(st: AuthState, data: RegisterData, newId: string, password: string)
    ensures var r := Register(st, data, newId);
            r.Done? ==> Login(r.state, LoginCredentials(data.email, password)) == Done(r.state, r.value)
  {
    var r := Register(st, data, newId);
    if r.Done? {
      var us := r.state.users;
      assert us[|st.users|] == r.value;
      var l := Login(r.state, LoginCredentials(data.email, password));
      assert l.Done?;
      var i :| 0 <= i < |us| && us[i] == l.value && l.value.email == data.email;
      assert forall k :: 0 <= k < |st.users| ==> us[k] == st.users[k];
    }
  }
}
