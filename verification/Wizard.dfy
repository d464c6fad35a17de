/**
The login wizard of the SSH front end, and the executor that puts its questions to the user one at a time. The
answers of the authentication server, the check of an e-mail address and the reading of an agreement are inputs.
Texts are the bytes of their UTF-8 encoding.
*/
module Wizard {
  import opened Prelude

  type Text = seq<Byte>

  datatype Stage = Init | Login | Sudo | SignUp | Terms | Verify | Shell | Terminate

  datatype Session = UserSession | SudoSession | GroupSession | NoSession

  datatype Goodbye =
    | InvalidUsername | AccountLocked | InternalError | WrongPassword | PasswordWeak | InvalidInput
    | AccountExists | MustAcceptTerms | WrongVerifyCode | Custom(text: Text)

  datatype Wizard = Wizard(
    stage: Stage,
    email: Option<Text>,
    session: Option<Session>,
    password: Option<Text>,
    verifyCode: Option<Text>,
    sudoCode: Option<Text>,
    goodbye: Option<Goodbye>,
    neededTerms: Option<Text>,
    acceptedTerms: Option<Text>)

  // What the server says; NoChain when it cannot be reached at all, NoReply when a request is lost.

  datatype QueryReply = QueryNoChain | QueryNoReply | Found | NotFound | Banned | Suspended | QueryFailed

  datatype LoginReply = LoginNoChain | LoginNoReply | Granted | Locked | Unverified | Unknown | Wrong | LoginFailed

  datatype SudoReply = SudoNoChain | SudoNoReply | Raised | WrongCode | SudoFailed

  datatype CreateReply = Created | AlreadyExists | TermsAsked(terms: Text) | BadEmail | CreateFailed

  datatype Server = Server(query: QueryReply, login: LoginReply, sudo: SudoReply, create: CreateReply)

  /** The two tests the wizard makes on texts. */
  datatype Rules = Rules(valid: Text -> bool, agrees: Text -> bool)

  /** Panicked: the wizard unwrapped the e-mail address of a user it has none of. */
  datatype Outcome = Moved(wizard: Wizard) | Panicked

  function One(responses: seq<Text>): Option<Text> {
    if |responses| == 1 then Some(responses[0]) else None
  }

  function Bye(w: Wizard, message: Goodbye): Outcome {
    Moved(w.(stage := Terminate, goodbye := Some(message)))
  }

  /** Move on, naming the user on the way. */
  function Named(w: Wizard, stage: Stage): Outcome {
    if w.email.None? then Panicked else Moved(w.(stage := stage))
  }

  function NamedBye(w: Wizard, message: Goodbye): Outcome {
    if w.email.None? then Panicked else Bye(w, message)
  }

  // ---------------------------------------------------------------- requests to the server

  datatype LoginResult =
    | LoginWithUser | NoPasswordSupplied | IncorrectPassword | Unregistered | InvalidEmail | AccountIsLocked
    | IsUnverified | LoginError

  function LoginResultOf(w: Wizard, reply: LoginReply): LoginResult {
    if reply.LoginNoChain? then LoginError
    else if w.email.None? then InvalidEmail
    else if w.password.None? then NoPasswordSupplied
    else
      match reply
      case Granted => LoginWithUser
      case Locked => AccountIsLocked
      case Unverified => IsUnverified
      case Unknown => Unregistered
      case Wrong => IncorrectPassword
      case _ => LoginError
  }

  function LoggedIn(w: Wizard, reply: LoginReply): Wizard {
    if LoginResultOf(w, reply).LoginWithUser? then w.(session := Some(UserSession)) else w
  }

  datatype SudoResult = Success | NoCodeSupplied | CodeWrong | SudoError

  function SudoResultOf(w: Wizard, reply: SudoReply): SudoResult {
    if w.sudoCode.None? || w.sudoCode.value == [] then NoCodeSupplied
    else if reply.SudoNoChain? || w.session != Some(UserSession) then SudoError
    else
      match reply
      case Raised => Success
      case WrongCode => CodeWrong
      case _ => SudoError
  }

  function Lifted(w: Wizard, reply: SudoReply): Wizard {
    if SudoResultOf(w, reply).Success? then w.(session := Some(SudoSession)) else w
  }

  datatype CreateResult =
    NoUsernameSupplied | NoPassword | Exists | EmailInvalid | CreateError | UserCreated | TermsNeeded

  function CreateResultOf(w: Wizard, reply: CreateReply): CreateResult {
    if w.email.None? then NoUsernameSupplied
    else if w.password.None? then NoPassword
    else
      match reply
      case Created => UserCreated
      case AlreadyExists => Exists
      case TermsAsked(_) => TermsNeeded
      case BadEmail => EmailInvalid
      case CreateFailed => CreateError
  }

  function Asked(w: Wizard, reply: CreateReply): Wizard {
    if CreateResultOf(w, reply).TermsNeeded? && reply.TermsAsked? then w.(neededTerms := Some(reply.terms)) else w
  }

  // ---------------------------------------------------------------- one call of the wizard

  function OnInit(rules: Rules, w: Wizard, reply: QueryReply): Outcome {
    if w.session.Some? then Moved(w.(stage := Sudo))
    else if w.email.None? || !rules.valid(w.email.value) then Bye(w, InvalidUsername)
    else
      match reply
      case Found => Named(w, Login)
      case NotFound => Named(w, SignUp)
      case Banned => Bye(w, AccountLocked)
      case Suspended => Bye(w, AccountLocked)
      case _ => Bye(w, InternalError)
  }

  function OnLogin(w: Wizard, responses: seq<Text>, reply: LoginReply): Outcome {
    var w := w.(password := One(responses));
    var after := LoggedIn(w, reply);
    match LoginResultOf(w, reply)
    case LoginWithUser => Named(after, Sudo)
    case IsUnverified => Named(after, Verify)
    case Unregistered => Named(after, SignUp)
    case NoPasswordSupplied => Moved(after.(stage := Login))
    case IncorrectPassword => Bye(after, WrongPassword)
    case InvalidEmail => Bye(after, InvalidUsername)
    case AccountIsLocked => Bye(after, AccountLocked)
    case LoginError => Bye(after, InternalError)
  }

  function OnSudo(w: Wizard, responses: seq<Text>, reply: SudoReply): Outcome {
    var w := w.(sudoCode := One(responses));
    var after := Lifted(w, reply);
    match SudoResultOf(w, reply)
    case Success => Named(after, Shell)
    case NoCodeSupplied => Named(after, Shell)
    case CodeWrong => Bye(after, WrongPassword)
    case SudoError => Bye(after, InternalError)
  }

  function OnSignUp(w: Wizard, responses: seq<Text>, reply: CreateReply): Outcome {
    var w := w.(password := None);
    if |responses| == 2 && |responses[0]| < 4 then Bye(w, PasswordWeak)
    else if |responses| == 2 && responses[1] != responses[0] then Bye(w, InvalidInput)
    else
      var w := w.(password := if |responses| == 2 then Some(responses[0]) else None);
      var after := Asked(w, reply);
      match CreateResultOf(w, reply)
      case UserCreated => Named(after, Verify)
      case TermsNeeded => Named(after, Terms)
      case Exists => NamedBye(after, AccountExists)
      case EmailInvalid => NamedBye(after, InvalidUsername)
      case NoPassword => Bye(after, InvalidInput)
      case NoUsernameSupplied => Bye(after, InvalidInput)
      case CreateError => Bye(after, InternalError)
  }

  function OnTerms(rules: Rules, w: Wizard, responses: seq<Text>, reply: CreateReply): Outcome {
    var agreed := |responses| == 1 && rules.agrees(responses[0]);
    var w := w.(acceptedTerms := if agreed then w.neededTerms else None);
    if w.acceptedTerms.None? then Bye(w, MustAcceptTerms)
    else
      var after := Asked(w, reply);
      match CreateResultOf(w, reply)
      case UserCreated => Named(after, Verify)
      case TermsNeeded => Named(after, Terms)
      case _ => Bye(after, InternalError)
  }

  function OnVerify(w: Wizard, responses: seq<Text>, reply: LoginReply): Outcome {
    var w := w.(verifyCode := One(responses));
    var after := LoggedIn(w, reply);
    match LoginResultOf(w, reply)
    case LoginWithUser => Named(after, Shell)
    case IncorrectPassword => Bye(after, WrongVerifyCode)
    case AccountIsLocked => Bye(after, AccountLocked)
    case _ => Bye(after, InternalError)
  }

  /** The whole reaction to the answers of one challenge. */
  function Respond(rules: Rules, w: Wizard, responses: seq<Text>, server: Server): Outcome {
    match w.stage
    case Init => OnInit(rules, w, server.query)
    case Login => OnLogin(w, responses, server.login)
    case Sudo => OnSudo(w, responses, server.sudo)
    case SignUp => OnSignUp(w, responses, server.create)
    case Terms => OnTerms(rules, w, responses, server.create)
    case Verify => OnVerify(w, responses, server.login)
    case Shell => Moved(w)
    case Terminate => Moved(w)
  }

  // ---------------------------------------------------------------- runs

  /** The calls a wizard gets: answers to process, or an order to fail. */
  datatype Call = Process(responses: seq<Text>, server: Server) | Fail(text: Text)

  function Apply(rules: Rules, w: Wizard, c: Call): Outcome {
    match c
    case Process(responses, server) => Respond(rules, w, responses, server)
    case Fail(text) => Bye(w, Custom(text))
  }

  function Run(rules: Rules, start: Wizard, calls: seq<Call>): Outcome {
    if calls == [] then Moved(start)
    else
      match Run(rules, start, calls[..|calls| - 1])
      case Panicked => Panicked
      case Moved(w) => Apply(rules, w, calls[|calls| - 1])
  }

  /** What is held at each stage. */
  predicate Sound(w: Wizard) {
    match w.stage
    case Init => true
    case Login => w.email.Some?
    case SignUp => w.email.Some?
    case Verify => w.email.Some? && w.password.Some?
    case Terms => w.email.Some? && w.password.Some? && w.neededTerms.Some?
    case Sudo => w.session.Some?
    case Shell => w.session.Some?
    case Terminate => w.goodbye.Some?
  }

  lemma ApplySound(rules: Rules, w: Wizard, c: Call)
    requires Sound(w)
    ensures Apply(rules, w, c).Moved? ==> Sound(Apply(rules, w, c).wizard)
  {
  }

  /** In every run, a shell or a sudo prompt means a session, and an end means a message. */
  lemma {:induction false} AlwaysSound(rules: Rules, start: Wizard, calls: seq<Call>)
    requires start.stage == Init
    ensures Run(rules, start, calls).Moved? ==> Sound(Run(rules, start, calls).wizard)
  {
    hide Apply;
    if calls == [] {
    } else {
      AlwaysSound(rules, start, calls[..|calls| - 1]);
      var before := Run(rules, start, calls[..|calls| - 1]);
      if before.Moved? {
        ApplySound(rules, before.wizard, calls[|calls| - 1]);
      }
    }
  }

  /** An end is an end: whatever comes, nothing but the message given to a later failure changes. */
  lemma {:induction false} TerminateIsFinal(rules: Rules, w: Wizard, calls: seq<Call>)
    requires w.stage == Terminate || w.stage == Shell
    ensures var end := Run(rules, w, calls);
            end.Moved? && end.wizard.session == w.session && end.wizard.stage in {w.stage, Terminate} &&
            ((forall c :: c in calls ==> c.Process?) ==> end.wizard == w)
  {
    if calls == [] {
    } else {
      TerminateIsFinal(rules, w, calls[..|calls| - 1]);
    }
  }

  /** The wizard panics in one place: past the sudo prompt, with a session but without an e-mail address. */
  predicate Unnamed(w: Wizard, c: Call) {
    w.stage == Sudo && w.email.None? && c.Process? &&
    SudoResultOf(w.(sudoCode := One(c.responses)), c.server.sudo) in {Success, NoCodeSupplied}
  }

  lemma PanicsIff(rules: Rules, w: Wizard, c: Call)
    requires Sound(w)
    ensures Apply(rules, w, c).Panicked? <==> Unnamed(w, c)
  {
  }

  lemma KeepsEmail(rules: Rules, w: Wizard, c: Call)
    ensures Apply(rules, w, c).Moved? ==> Apply(rules, w, c).wizard.email == w.email
  {
  }

  /** Without an address and without a session there is no way in. */
  predicate Nobody(w: Wizard) {
    w.email.None? && w.session.None? && (w.stage == Init || w.stage == Terminate)
  }

  lemma NobodyStep(rules: Rules, w: Wizard, c: Call)
    requires Nobody(w)
    ensures Apply(rules, w, c).Moved? && Nobody(Apply(rules, w, c).wizard)
  {
  }

  /** A wizard that starts with an address, or without a session, never panics, and with neither lets nobody in. */
  lemma {:induction false} NeverPanics(rules: Rules, start: Wizard, calls: seq<Call>)
    requires start.stage == Init && (start.email.Some? || start.session.None?)
    ensures var end := Run(rules, start, calls);
            end.Moved? && end.wizard.email == start.email && (start.email.None? ==> Nobody(end.wizard))
  {
    hide Apply;
    if calls == [] {
    } else {
      var c := calls[|calls| - 1];
      NeverPanics(rules, start, calls[..|calls| - 1]);
      AlwaysSound(rules, start, calls[..|calls| - 1]);
      var w := Run(rules, start, calls[..|calls| - 1]).wizard;
      PanicsIff(rules, w, c);
      KeepsEmail(rules, w, c);
      if start.email.None? {
        NobodyStep(rules, w, c);
      }
    }
  }

  /** A wizard that starts with a session and no address panics as soon as the user skips the sudo prompt. */
  lemma UnnamedPanics(rules: Rules, start: Wizard, responses: seq<Text>, first: Server, second: Server)
    requires start.stage == Init && start.email.None? && start.session.Some?
    ensures Run(rules, start, [Process(responses, first), Process([], second)]).Panicked?
  {
    var calls := [Process(responses, first), Process([], second)];
    assert calls[..1] == [Process(responses, first)];
    assert calls[..1][..0] == [];
    assert Run(rules, start, calls[..1]) == Moved(start.(stage := Sudo));
  }

  // ---------------------------------------------------------------- where a session comes from

  /** The server granted the login of call i, made with an address and a password. */
  predicate GrantedAt(rules: Rules, start: Wizard, calls: seq<Call>, i: nat) {
    i < |calls| && calls[i].Process? && calls[i].server.login == Granted &&
    var before := Run(rules, start, calls[..i]);
    before.Moved? && before.wizard.email.Some? &&
    (if before.wizard.stage == Login then |calls[i].responses| == 1
     else before.wizard.stage == Verify && before.wizard.password.Some?)
  }

  /** The server accepted the code given in call i. */
  predicate RaisedAt(rules: Rules, start: Wizard, calls: seq<Call>, i: nat) {
    i < |calls| && calls[i].Process? && calls[i].server.sudo == Raised &&
    |calls[i].responses| == 1 && calls[i].responses[0] != [] &&
    var before := Run(rules, start, calls[..i]);
    before.Moved? && before.wizard.stage == Sudo && before.wizard.session == Some(UserSession)
  }

  lemma SessionStep(rules: Rules, w: Wizard, c: Call)
    requires Sound(w) && Apply(rules, w, c).Moved? && Apply(rules, w, c).wizard.session != w.session
    ensures c.Process?
    ensures var after := Apply(rules, w, c).wizard;
            if after.session == Some(SudoSession)
            then w.stage == Sudo && w.session == Some(UserSession) && c.server.sudo == Raised &&
                 |c.responses| == 1 && c.responses[0] != []
            else after.session == Some(UserSession) && c.server.login == Granted && w.email.Some? &&
                 if w.stage == Login then |c.responses| == 1 else w.stage == Verify && w.password.Some?
  {
  }

  /**
   A session that was not there at the start was granted by the server, to a user who gave a password; and one
   with raised rights was raised by the server, for a code the user gave.
   */
  lemma {:induction false} SessionIsGranted(rules: Rules, start: Wizard, calls: seq<Call>) returns (i: nat)
    requires start.stage == Init && Run(rules, start, calls).Moved?
    requires Run(rules, start, calls).wizard.session != start.session
    ensures if Run(rules, start, calls).wizard.session == Some(SudoSession) then RaisedAt(rules, start, calls, i)
            else Run(rules, start, calls).wizard.session == Some(UserSession) && GrantedAt(rules, start, calls, i)
  {
    hide Apply, Sound;
    assert calls != [];
    var front, c := calls[..|calls| - 1], calls[|calls| - 1];
    AlwaysSound(rules, start, front);
    var w := Run(rules, start, front).wizard;
    if Apply(rules, w, c).wizard.session != w.session {
      i := |front|;
      SessionStep(rules, w, c);
    } else {
      i := SessionIsGranted(rules, start, front);
      assert front[..i] == calls[..i];
    }
  }

  // ---------------------------------------------------------------- where a run stands

  /** Two like answers, long enough for a password. */
  predicate NewPassword(responses: seq<Text>) {
    |responses| == 2 && responses[0] == responses[1] && |responses[0]| >= 4
  }

  /** No code, or an empty one. */
  predicate Skips(responses: seq<Text>) {
    |responses| != 1 || responses[0] == []
  }

  predicate Agreed(rules: Rules, responses: seq<Text>) {
    |responses| == 1 && rules.agrees(responses[0])
  }

  /** A visitor without a session whose address can be looked up. */
  predicate Visitor(rules: Rules, w: Wizard) {
    w.stage == Init && w.session.None? && w.email.Some? && rules.valid(w.email.value)
  }

  /** What the user and the server have to say for a wizard to get to a stage, or to stay there; at the end it stays. */
  predicate Leads(rules: Rules, w: Wizard, c: Call, next: Stage) {
    c.Process? &&
    match next
    case Init => false
    case Login =>
      || (Visitor(rules, w) && c.server.query.Found?)
      || (w.stage == Login && |c.responses| != 1 && !c.server.login.LoginNoChain?)
    case SignUp =>
      || (Visitor(rules, w) && c.server.query.NotFound?)
      || (w.stage == Login && |c.responses| == 1 && c.server.login.Unknown?)
    case Terms =>
      || (w.stage == SignUp && NewPassword(c.responses) && c.server.create.TermsAsked?)
      || (w.stage == Terms && Agreed(rules, c.responses) && c.server.create.TermsAsked?)
    case Verify =>
      || (w.stage == Login && |c.responses| == 1 && c.server.login.Unverified?)
      || (w.stage == SignUp && NewPassword(c.responses) && c.server.create.Created?)
      || (w.stage == Terms && Agreed(rules, c.responses) && c.server.create.Created?)
    case Sudo =>
      || (w.stage == Init && w.session.Some?)
      || (w.stage == Login && |c.responses| == 1 && c.server.login.Granted?)
    case Shell =>
      || w.stage == Shell
      || (w.stage == Verify && c.server.login.Granted?)
      || (w.stage == Sudo && (Skips(c.responses) || (w.session == Some(UserSession) && c.server.sudo.Raised?)))
    case Terminate => w.stage == Terminate
  }

  /** The stage a call leads to, for each answer and each reply; if to none of them, the run ends there. */
  lemma StageIff(rules: Rules, w: Wizard, c: Call, next: Stage)
    requires Sound(w) && Apply(rules, w, c).Moved?
    ensures next != Terminate ==> (Apply(rules, w, c).wizard.stage == next <==> Leads(rules, w, c, next))
  {
  }

  /** Call i led to the stage from another one, and it has been kept since. */
  ghost predicate EnteredAt(rules: Rules, start: Wizard, calls: seq<Call>, i: nat, stage: Stage) {
    && i < |calls|
    && Run(rules, start, calls[..i]).Moved? && Run(rules, start, calls[..i]).wizard.stage != stage
    && Leads(rules, Run(rules, start, calls[..i]).wizard, calls[i], stage)
    && (forall j: nat :: i < j <= |calls| ==> StandsAt(Run(rules, start, calls[..j]), stage))
  }

  predicate StandsAt(o: Outcome, stage: Stage) {
    o.Moved? && o.wizard.stage == stage
  }

  /**
   Wherever a run stands, a call led it there, for a reason the user and the server gave: to the login only because
   the address is registered, to the sign-up only because it is not, to the shell only with a session raised, not
   to be raised, or just granted.
   */
  lemma {:induction false} StageIsEarned(rules: Rules, start: Wizard, calls: seq<Call>) returns (i: nat)
    requires start.stage == Init && Run(rules, start, calls).Moved?
    requires Run(rules, start, calls).wizard.stage !in {Init, Terminate}
    ensures EnteredAt(rules, start, calls, i, Run(rules, start, calls).wizard.stage)
  {
    hide Apply, Sound, Leads;
    assert calls != [];
    var front, c := calls[..|calls| - 1], calls[|calls| - 1];
    var w, stage := Run(rules, start, front).wizard, Run(rules, start, calls).wizard.stage;
    AlwaysSound(rules, start, front);
    StageIff(rules, w, c, stage);
    assert calls[..|calls|] == calls;
    if w.stage == stage {
      i := StageIsEarned(rules, start, front);
      assert forall j: nat :: j <= |front| ==> front[..j] == calls[..j];
    } else {
      i := |front|;
    }
  }

  /** The wizard holds what it was told at each stage, and asks the server with that. */
  lemma TypedIsHeld(rules: Rules, w: Wizard, c: Call)
    requires Sound(w) && c.Process? && Apply(rules, w, c).Moved?
    ensures var after := Apply(rules, w, c).wizard;
            && (w.stage == Login ==> after.password == One(c.responses))
            && (w.stage == Sudo ==> after.sudoCode == One(c.responses))
            && (w.stage == Verify ==> after.verifyCode == One(c.responses) && after.password == w.password)
            && (w.stage == SignUp ==>
                  after.password == if NewPassword(c.responses) then Some(c.responses[0]) else None)
            && (w.stage == Terms ==>
                  after.password == w.password &&
                  after.acceptedTerms == if Agreed(rules, c.responses) then w.neededTerms else None)
            && (after.stage == Terms ==>
                  c.server.create.TermsAsked? && after.neededTerms == Some(c.server.create.terms))
  {
  }

  /** Call i is an answer with this password, at the login or, twice, at the sign-up. */
  predicate TypedAt(rules: Rules, start: Wizard, calls: seq<Call>, i: nat, password: Text) {
    && i < |calls| && calls[i].Process?
    && (|| (StandsAt(Run(rules, start, calls[..i]), Login) && calls[i].responses == [password])
        || (StandsAt(Run(rules, start, calls[..i]), SignUp) && calls[i].responses == [password, password]
            && |password| >= 4))
  }

  /** Whoever is to verify an address or to agree to terms is known by the password last typed. */
  lemma {:induction false} PasswordIsTyped(rules: Rules, start: Wizard, calls: seq<Call>) returns (i: nat)
    requires start.stage == Init && Run(rules, start, calls).Moved?
    requires Run(rules, start, calls).wizard.stage in {Verify, Terms}
    ensures Run(rules, start, calls).wizard.password.Some?
    ensures TypedAt(rules, start, calls, i, Run(rules, start, calls).wizard.password.value)
    ensures forall j: nat :: i < j < |calls| ==> StandsAt(Run(rules, start, calls[..j]), Terms)
  {
    hide Apply, Sound;
    assert calls != [];
    var front, c := calls[..|calls| - 1], calls[|calls| - 1];
    var w, stage := Run(rules, start, front).wizard, Run(rules, start, calls).wizard.stage;
    AlwaysSound(rules, start, front);
    StageIff(rules, w, c, stage);
    TypedIsHeld(rules, w, c);
    if w.stage == Terms {
      i := PasswordIsTyped(rules, start, front);
      assert forall j: nat :: j <= |front| ==> front[..j] == calls[..j];
    } else {
      i := |front|;
      assert w.stage == SignUp ==> c.responses == [c.responses[0], c.responses[0]];
      assert w.stage == Login ==> c.responses == [c.responses[0]];
    }
  }

  // ---------------------------------------------------------------- questions

  datatype Prompt = Password | PasswordAgain | AuthenticatorCode | Agree | VerificationCode

  function Questions(stage: Stage): seq<Prompt> {
    match stage
    case Login => [Password]
    case Sudo => [AuthenticatorCode]
    case SignUp => [Password, PasswordAgain]
    case Terms => [Agree]
    case Verify => [VerificationCode]
    case _ => []
  }

  datatype Action = Challenge(prompts: seq<Prompt>) | ToShell | End(message: Option<Goodbye>)

  function ActionOf(w: Wizard): Action {
    if Questions(w.stage) != [] then Challenge(Questions(w.stage))
    else if w.stage == Shell then ToShell
    else End(w.goodbye)
  }

  function Then(rules: Rules, w: Wizard, responses: seq<Text>, server: Server): Outcome {
    Apply(rules, w, Process(responses, server))
  }

  /** The action a wizard answers a call with, if it does not panic. */
  predicate Says(o: Outcome, action: Action) {
    o.Moved? && ActionOf(o.wizard) == action
  }

  /** A registered user is asked for a password, then for a code, and with either is let in with what it is worth. */
  lemma RegisteredSignsIn(rules: Rules, w: Wizard, first: Server, second: Server, third: Server, password: Text,
                          code: Text)
    requires Visitor(rules, w) && first.query.Found? && second.login.Granted?
    requires code == [] || third.sudo.Raised?
    ensures var a := Then(rules, w, [], first);
            && Says(a, Challenge([Password]))
            && var b := Then(rules, a.wizard, [password], second);
               && Says(b, Challenge([AuthenticatorCode])) && b.wizard.session == Some(UserSession)
               && var c := Then(rules, b.wizard, [code], third);
                  && Says(c, ToShell)
                  && c.wizard.session == Some(if code == [] then UserSession else SudoSession)
  {
  }

  /** Somebody new is asked for a password twice, for agreement if there are terms, for a code, and is let in. */
  lemma NewcomerSignsUp(rules: Rules, w: Wizard, first: Server, second: Server, third: Server, fourth: Server,
                        password: Text, yes: Text, code: Text)
    requires Visitor(rules, w) && first.query.NotFound? && |password| >= 4
    requires second.create.Created? || (second.create.TermsAsked? && third.create.Created? && rules.agrees(yes))
    requires fourth.login.Granted?
    ensures var a := Then(rules, w, [], first);
            && Says(a, Challenge([Password, PasswordAgain]))
            && var b := Then(rules, a.wizard, [password, password], second);
               && b.Moved?
               && (second.create.TermsAsked? ==> Says(b, Challenge([Agree])))
               && var c := if second.create.TermsAsked? then Then(rules, b.wizard, [yes], third) else b;
                  && Says(c, Challenge([VerificationCode])) && c.wizard.session.None?
                  && var d := Then(rules, c.wizard, [code], fourth);
                     Says(d, ToShell) && d.wizard.session == Some(UserSession)
  {
  }

  /** A question was put, so there is one answer to each of its parts. */
  predicate Fits(w: Wizard, c: Call) {
    c.Process? && (Questions(w.stage) != [] ==> |c.responses| == |Questions(w.stage)|)
  }

  predicate AllFit(rules: Rules, start: Wizard, calls: seq<Call>) {
    calls == [] ||
    (AllFit(rules, start, calls[..|calls| - 1]) &&
     (Run(rules, start, calls[..|calls| - 1]).Moved? ==>
      Fits(Run(rules, start, calls[..|calls| - 1]).wizard, calls[|calls| - 1])))
  }

  /** What went wrong, when the user is told a given message. */
  predicate Cause(rules: Rules, w: Wizard, responses: seq<Text>, server: Server, message: Goodbye) {
    match message
    case InvalidUsername =>
      || (w.stage == Init && (w.email.None? || !rules.valid(w.email.value)))
      || (w.stage == SignUp && server.create.BadEmail?)
    case AccountLocked =>
      (w.stage == Init && (server.query.Banned? || server.query.Suspended?)) ||
      ((w.stage == Login || w.stage == Verify) && server.login.Locked?)
    case WrongPassword =>
      (w.stage == Login && server.login.Wrong?) ||
      (w.stage == Sudo && w.session == Some(UserSession) && responses != [[]] && server.sudo.WrongCode?)
    case PasswordWeak => w.stage == SignUp && |responses| == 2 && |responses[0]| < 4
    case InvalidInput => w.stage == SignUp && |responses| == 2 && responses[0] != responses[1]
    case AccountExists => w.stage == SignUp && server.create.AlreadyExists?
    case MustAcceptTerms => w.stage == Terms && |responses| == 1 && !rules.agrees(responses[0])
    case WrongVerifyCode => w.stage == Verify && server.login.Wrong?
    case InternalError => !Refusal(w.stage, server)
    case Custom(_) => false
  }

  /** The server gave a reason to refuse, or took the user further, at this stage. */
  predicate Refusal(stage: Stage, server: Server) {
    match stage
    case Init => server.query in {Found, NotFound, Banned, Suspended}
    case Login => server.login in {Granted, Locked, Unverified, Unknown, Wrong}
    case Verify => server.login in {Granted, Locked, Wrong}
    case SignUp => !server.create.CreateFailed?
    case Terms => server.create.Created? || server.create.TermsAsked?
    case _ => false
  }

  /** Every message names its cause. */
  lemma GoodbyeNamesCause(rules: Rules, w: Wizard, responses: seq<Text>, server: Server)
    requires Sound(w) && Fits(w, Process(responses, server)) && Rank(w.stage) > 0
    ensures var end := Respond(rules, w, responses, server);
            end.Moved? && end.wizard.stage == Terminate ==>
              Cause(rules, w, responses, server, end.wizard.goodbye.value)
  {
  }

  /** How many questions are left at most, if no new terms come up. */
  function Rank(stage: Stage): nat {
    match stage
    case Init => 5
    case Login => 4
    case SignUp => 3
    case Terms => 2
    case Verify => 1
    case Sudo => 1
    case _ => 0
  }

  function NewTerms(calls: seq<Call>): nat {
    if calls == [] then 0
    else NewTerms(calls[..|calls| - 1]) +
         if calls[|calls| - 1].Process? && calls[|calls| - 1].server.create.TermsAsked? then 1 else 0
  }

  lemma RankStep(rules: Rules, w: Wizard, c: Call)
    requires Sound(w) && Fits(w, c) && Apply(rules, w, c).Moved?
    ensures var after := Rank(Apply(rules, w, c).wizard.stage);
            if Rank(w.stage) == 0 then after == 0
            else after < Rank(w.stage) || (after == Rank(w.stage) && c.server.create.TermsAsked?)
  {
  }

  lemma {:induction false} RankFalls(rules: Rules, start: Wizard, calls: seq<Call>)
    requires start.stage == Init && AllFit(rules, start, calls) && Run(rules, start, calls).Moved?
    ensures var rank := Rank(Run(rules, start, calls).wizard.stage);
            rank == 0 || rank + |calls| <= 5 + NewTerms(calls)
  {
    hide Apply, Sound, Fits, Rank;
    if calls != [] {
      var front, c := calls[..|calls| - 1], calls[|calls| - 1];
      RankFalls(rules, start, front);
      AlwaysSound(rules, start, front);
      RankStep(rules, Run(rules, start, front).wizard, c);
      assert c.Process? by {
        FitsIsProcess(Run(rules, start, front).wizard, c);
      }
    } else {
      InitRank();
    }
  }

  lemma FitsIsProcess(w: Wizard, c: Call)
    requires Fits(w, c)
    ensures c.Process?
  {
  }

  lemma InitRank()
    ensures Rank(Init) == 5
  {
  }

  /**
   Nobody is kept at the door: after five calls and one for each time the server brought up new terms, it is
   over.
   */
  lemma SignInEnds(rules: Rules, start: Wizard, calls: seq<Call>)
    requires start.stage == Init && AllFit(rules, start, calls) && |calls| >= 5 + NewTerms(calls)
    ensures var end := Run(rules, start, calls);
            end.Moved? ==> end.wizard.stage == Shell || end.wizard.stage == Terminate
  {
    if Run(rules, start, calls).Moved? {
      RankFalls(rules, start, calls);
    }
  }

  /** Call i ended the run, and the message of the end is the one its answers call for. */
  predicate EndedBy(rules: Rules, start: Wizard, calls: seq<Call>, i: nat, message: Goodbye) {
    i < |calls| && calls[i].Process? &&
    var before, after := Run(rules, start, calls[..i]), Run(rules, start, calls[..i + 1]);
    before.Moved? && Rank(before.wizard.stage) > 0 &&
    after.Moved? && after.wizard.stage == Terminate && after.wizard.goodbye == Some(message) &&
    Cause(rules, before.wizard, calls[i].responses, calls[i].server, message)
  }

  /** However a run of fitting calls goes on after its end, the message it ended with names the call that ended it. */
  lemma {:induction false} EndNamesCause(rules: Rules, start: Wizard, calls: seq<Call>) returns (i: nat)
    requires start.stage == Init && AllFit(rules, start, calls)
    requires Run(rules, start, calls).Moved? && Run(rules, start, calls).wizard.stage == Terminate
    ensures Run(rules, start, calls).wizard.goodbye.Some?
    ensures EndedBy(rules, start, calls, i, Run(rules, start, calls).wizard.goodbye.value)
  {
    hide Cause, Sound, Respond;
    var front, c := calls[..|calls| - 1], calls[|calls| - 1];
    var w := Run(rules, start, front).wizard;
    AlwaysSound(rules, start, front);
    EndHasMessage(rules, start, calls);
    if Rank(w.stage) > 0 {
      i := |front|;
      assert calls[..i + 1] == calls;
      GoodbyeNamesCause(rules, w, c.responses, c.server);
    } else {
      StaysPut(rules, w, c);
      i := EndNamesCause(rules, start, front);
      assert front[..i] == calls[..i] && front[..i + 1] == calls[..i + 1];
    }
  }

  lemma EndHasMessage(rules: Rules, start: Wizard, calls: seq<Call>)
    requires start.stage == Init && Run(rules, start, calls).Moved?
    ensures Run(rules, start, calls).wizard.stage == Terminate ==> Run(rules, start, calls).wizard.goodbye.Some?
  {
    hide Run;
    AlwaysSound(rules, start, calls);
  }

  lemma StaysPut(rules: Rules, w: Wizard, c: Call)
    requires Rank(w.stage) == 0 && c.Process?
    ensures Apply(rules, w, c) == Moved(w)
  {
  }

  // ---------------------------------------------------------------- the executor

  /** The questions still to put, the next one last, and the answers so far. */
  datatype Executor = Executor(prompts: seq<Prompt>, responses: seq<Text>)

  /** What the user gets to see of a feed. */
  datatype Shown = Prompted(prompt: Prompt) | Blank | Done | Exited(message: Option<Goodbye>)

  function Reverse(prompts: seq<Prompt>): seq<Prompt> {
    if prompts == [] then [] else Reverse(prompts[1..]) + [prompts[0]]
  }

  function Hear(e: Executor, data: Option<Text>): Executor {
    if data.Some? then e.(responses := e.responses + [data.value]) else e
  }

  /** The wizard is called once no question is left. */
  predicate Consults(e: Executor) {
    e.prompts == []
  }

  function Pop(e: Executor): (Executor, Shown)
    requires e.prompts != []
  {
    (e.(prompts := e.prompts[..|e.prompts| - 1]), Prompted(e.prompts[|e.prompts| - 1]))
  }

  /** One feed; `action` is what the wizard answers if it is called. */
  function Fed(e: Executor, data: Option<Text>, action: Action): (Executor, Shown) {
    var heard := Hear(e, data);
    if !Consults(e) then Pop(heard)
    else
      var drained := heard.(responses := []);
      match action
      case ToShell => (drained, Done)
      case End(message) => (drained, Exited(message))
      case Challenge(prompts) =>
        var asking := drained.(prompts := drained.prompts + Reverse(prompts));
        if asking.prompts == [] then (asking, Blank) else Pop(asking)
  }

  // ---------------------------------------------------------------- a plain conversation

  /** The questions of the last challenge, and what was fed since it was put. */
  datatype Talk = Talk(round: seq<Prompt>, given: seq<Option<Text>>)

  function Somes(given: seq<Option<Text>>): seq<Text> {
    if given == [] then []
    else Somes(given[..|given| - 1]) + if given[|given| - 1].Some? then [given[|given| - 1].value] else []
  }

  predicate RoundOver(t: Talk) {
    |t.given| + 1 >= |t.round|
  }

  /** Put the questions of a round in order; when the last is answered, hear what the wizard says. */
  function Converse(t: Talk, data: Option<Text>, action: Action): (Talk, Shown) {
    if !RoundOver(t) then (Talk(t.round, t.given + [data]), Prompted(t.round[|t.given| + 1]))
    else
      match action
      case ToShell => (Talk([], []), Done)
      case End(message) => (Talk([], []), Exited(message))
      case Challenge(prompts) => (Talk(prompts, []), if prompts == [] then Blank else Prompted(prompts[0]))
  }

  predicate Matches(e: Executor, t: Talk) {
    |t.given| <= |t.round| &&
    (t.round != [] ==> |t.given| < |t.round|) &&
    e.responses == Somes(t.given) &&
    e.prompts == if t.round == [] then [] else Reverse(t.round[|t.given| + 1..])
  }

  lemma {:induction false} ReverseLength(prompts: seq<Prompt>)
    ensures |Reverse(prompts)| == |prompts|
  {
    if prompts == [] {
    } else {
      ReverseLength(prompts[1..]);
    }
  }

  lemma ReversePops(prompts: seq<Prompt>)
    requires prompts != []
    ensures Reverse(prompts) != [] && Reverse(prompts)[|Reverse(prompts)| - 1] == prompts[0]
    ensures Reverse(prompts)[..|Reverse(prompts)| - 1] == Reverse(prompts[1..])
  {
  }

  lemma SomesSnoc(given: seq<Option<Text>>, data: Option<Text>)
    ensures Somes(given + [data]) == Somes(given) + if data.Some? then [data.value] else []
  {
    assert (given + [data])[..|given|] == given;
  }

  lemma ConsultsIffOver(e: Executor, t: Talk, data: Option<Text>)
    requires Matches(e, t)
    ensures Consults(e) <==> RoundOver(t)
    ensures Hear(e, data).responses == Somes(t.given + [data])
  {
    hide Somes, Reverse;
    SomesSnoc(t.given, data);
    if t.round != [] {
      ReverseLength(t.round[|t.given| + 1..]);
    }
  }

  lemma PutsNext(e: Executor, t: Talk, data: Option<Text>)
    requires Matches(e, t) && !RoundOver(t)
    ensures e.prompts != []
    ensures var (e', shown) := Pop(Hear(e, data));
            Matches(e', Talk(t.round, t.given + [data])) && shown == Prompted(t.round[|t.given| + 1])
  {
    hide Somes, Reverse;
    SomesSnoc(t.given, data);
    var left := t.round[|t.given| + 1..];
    ReversePops(left);
    assert left[1..] == t.round[|t.given| + 2..];
  }

  lemma PutsFirst(e: Executor, prompts: seq<Prompt>)
    requires e.prompts == Reverse(prompts) && e.responses == [] && prompts != []
    ensures e.prompts != []
    ensures var (e', shown) := Pop(e);
            Matches(e', Talk(prompts, [])) && shown == Prompted(prompts[0])
  {
    hide Reverse, Somes;
    EmptyCases();
    ReversePops(prompts);
  }

  lemma NothingBefore(prompts: seq<Prompt>)
    ensures [] + prompts == prompts
  {
  }

  /** The stack of reversed questions and the drained answers behave as the plain conversation does. */
  lemma FeedConverses(e: Executor, t: Talk, data: Option<Text>, action: Action)
    requires Matches(e, t)
    ensures Consults(e) <==> RoundOver(t)
    ensures Hear(e, data).responses == Somes(t.given + [data])
    ensures var (e', shown) := Fed(e, data, action);
            var (t', told) := Converse(t, data, action);
            Matches(e', t') && shown == told
  {
    ConsultsIffOver(e, t, data);
    if !RoundOver(t) {
      hide Somes, Reverse, Matches, Pop;
      PutsNext(e, t, data);
    } else if action.Challenge? && action.prompts != [] {
      hide Somes, Reverse, Matches, Pop;
      NothingBefore(Reverse(action.prompts));
      PutsFirst(Executor(Reverse(action.prompts), []), action.prompts);
    } else {
      hide Pop;
    }
  }

  lemma EmptyCases()
    ensures Somes([]) == [] && Reverse([]) == []
  {
  }

  lemma {:induction false} SomesLength(given: seq<Option<Text>>)
    ensures |Somes(given)| <= |given|
    ensures |Somes(given)| == |given| <==> forall d :: d in given ==> d.Some?
    ensures |Somes(given)| == |given| ==> forall k :: 0 <= k < |given| ==> given[k] == Some(Somes(given)[k])
  {
    if given == [] {
    } else {
      var front, last := given[..|given| - 1], given[|given| - 1];
      SomesLength(front);
      assert given == front + [last];
      assert forall d :: d in given <==> d in front || d == last;
    }
  }

  function FeedAll(feeds: seq<(Option<Text>, Action)>): Executor {
    if feeds == [] then Executor([], [])
    else Fed(FeedAll(feeds[..|feeds| - 1]), feeds[|feeds| - 1].0, feeds[|feeds| - 1].1).0
  }

  function ConverseAll(feeds: seq<(Option<Text>, Action)>): Talk {
    if feeds == [] then Talk([], [])
    else Converse(ConverseAll(feeds[..|feeds| - 1]), feeds[|feeds| - 1].0, feeds[|feeds| - 1].1).0
  }

  lemma {:induction false} FollowsTalk(feeds: seq<(Option<Text>, Action)>)
    ensures Matches(FeedAll(feeds), ConverseAll(feeds))
  {
    hide Matches, Fed, Converse;
    if feeds == [] {
      StartMatches();
    } else {
      var front, last := feeds[..|feeds| - 1], feeds[|feeds| - 1];
      FollowsTalk(front);
      FeedConverses(FeedAll(front), ConverseAll(front), last.0, last.1);
    }
  }

  lemma StartMatches()
    ensures Matches(Executor([], []), Talk([], []))
  {
  }

  /**
   Over every run of feeds, whatever the wizard answers: it is called exactly when a round of questions is over,
   with what was fed since, in that order; and that is one answer for each question if and only if no feed of
   the round came without data.
   */
  lemma AnswersMatchQuestions(feeds: seq<(Option<Text>, Action)>, data: Option<Text>)
    ensures var (e, t) := (FeedAll(feeds), ConverseAll(feeds));
            (Consults(e) <==> RoundOver(t)) &&
            (Consults(e) ==>
               var fed, heard := t.given + [data], Hear(e, data).responses;
               heard == Somes(fed) &&
               (t.round != [] ==>
                  (|heard| == |t.round| <==> forall d :: d in fed ==> d.Some?) &&
                  (|heard| == |t.round| ==> forall k :: 0 <= k < |t.round| ==> fed[k] == Some(heard[k]))))
  {
    hide FeedAll, ConverseAll, Reverse, Somes;
    var t := ConverseAll(feeds);
    FollowsTalk(feeds);
    FeedConverses(FeedAll(feeds), t, data, ToShell);
    SomesLength(t.given + [data]);
  }

  // ---------------------------------------------------------------- the wizard behind the executor

  /** The executor, its wizard, and the calls made to it. */
  datatype Console =
    | Console(exec: Executor, wizard: Wizard, calls: seq<Call>)
    | Crashed(calls: seq<Call>)

  function FeedConsole(rules: Rules, c: Console, data: Option<Text>, server: Server): Console {
    if c.Crashed? then c
    else if !Consults(c.exec) then Console(Pop(Hear(c.exec, data)).0, c.wizard, c.calls)
    else
      var call := Process(Hear(c.exec, data).responses, server);
      match Apply(rules, c.wizard, call)
      case Panicked => Crashed(c.calls + [call])
      case Moved(w) => Console(Fed(c.exec, data, ActionOf(w)).0, w, c.calls + [call])
  }

  /** A sitting: the console feeds once without data, then one line after the other. */
  function Sitting(rules: Rules, start: Wizard, first: Server, lines: seq<(Text, Server)>): Console {
    if lines == [] then FeedConsole(rules, Console(Executor([], []), start, []), None, first)
    else
      var last := lines[|lines| - 1];
      FeedConsole(rules, Sitting(rules, start, first, lines[..|lines| - 1]), Some(last.0), last.1)
  }

  function Answers(texts: seq<Text>): seq<Option<Text>> {
    seq(|texts|, i requires 0 <= i < |texts| => Some(texts[i]))
  }

  lemma {:induction false} SomesOfAnswers(texts: seq<Text>)
    ensures Somes(Answers(texts)) == texts
  {
    if texts == [] {
    } else {
      var front := texts[..|texts| - 1];
      SomesOfAnswers(front);
      assert Answers(texts)[..|texts| - 1] == Answers(front);
    }
  }

  /** The executor is in the middle of the questions its wizard waits on, and every feed since gave an answer. */
  predicate InStep(c: Console) {
    c.Console? ==> Matches(c.exec, Talk(Questions(c.wizard.stage), Answers(c.exec.responses)))
  }

  /** The wizard is where its calls lead to, and each call answered the question it was waiting on. */
  predicate Traced(rules: Rules, start: Wizard, c: Console) {
    AllFit(rules, start, c.calls) &&
    Run(rules, start, c.calls) == if c.Crashed? then Panicked else Moved(c.wizard)
  }

  lemma FeedKeepsStep(rules: Rules, c: Console, data: Option<Text>, server: Server)
    requires InStep(c) && (data.Some? || (c.Console? && c.wizard.stage == Init))
    ensures InStep(FeedConsole(rules, c, data, server))
    ensures c.Console? && Consults(c.exec) ==> Fits(c.wizard, Process(Hear(c.exec, data).responses, server))
  {
    hide Apply, Somes, Reverse, Answers;
    if c.Console? {
      var t := Talk(Questions(c.wizard.stage), Answers(c.exec.responses));
      SomesOfAnswers(c.exec.responses);
      AnswersLength(c.exec.responses);
      EmptyCases();
      EmptyAnswers();
      if !Consults(c.exec) {
        FeedConverses(c.exec, t, data, ToShell);
        var e := Pop(Hear(c.exec, data)).0;
        assert t.given + [data] == Answers(e.responses) by {
          AnswersSnoc(c.exec.responses, data.value);
        }
      } else {
        SomesSnoc(t.given, data);
        var out := Apply(rules, c.wizard, Process(Hear(c.exec, data).responses, server));
        if out.Moved? {
          FeedConverses(c.exec, t, data, ActionOf(out.wizard));
        } else {
          FeedConverses(c.exec, t, data, ToShell);
        }
      }
    }
  }

  lemma AnswersLength(texts: seq<Text>)
    ensures |Answers(texts)| == |texts|
  {
  }

  lemma EmptyAnswers()
    ensures Answers([]) == []
  {
  }

  lemma AnswersSnoc(texts: seq<Text>, text: Text)
    ensures Answers(texts) + [Some(text)] == Answers(texts + [text])
  {
  }

  lemma FeedTraces(rules: Rules, start: Wizard, c: Console, data: Option<Text>, server: Server)
    requires Traced(rules, start, c)
    requires c.Console? && Consults(c.exec) ==> Fits(c.wizard, Process(Hear(c.exec, data).responses, server))
    ensures Traced(rules, start, FeedConsole(rules, c, data, server))
  {
    hide Apply, Fits;
    if c.Console? && Consults(c.exec) {
      var calls := c.calls + [Process(Hear(c.exec, data).responses, server)];
      assert calls[..|calls| - 1] == c.calls;
    }
  }

  /**
   Behind the console, the wizard is asked exactly what it put to the user: every call of a sitting carries one
   answer for each of its questions, so what holds of all fitting runs of the wizard holds of all sittings.
   */
  lemma {:induction false} SittingFits(rules: Rules, start: Wizard, first: Server, lines: seq<(Text, Server)>)
    requires start.stage == Init
    ensures InStep(Sitting(rules, start, first, lines)) && Traced(rules, start, Sitting(rules, start, first, lines))
  {
    hide FeedConsole, InStep, Traced;
    if lines == [] {
      var c := Console(Executor([], []), start, []);
      StartInStep(rules, start);
      FeedKeepsStep(rules, c, None, first);
      FeedTraces(rules, start, c, None, first);
    } else {
      var last := lines[|lines| - 1];
      var c := Sitting(rules, start, first, lines[..|lines| - 1]);
      SittingFits(rules, start, first, lines[..|lines| - 1]);
      FeedKeepsStep(rules, c, Some(last.0), last.1);
      FeedTraces(rules, start, c, Some(last.0), last.1);
    }
  }

  lemma StartInStep(rules: Rules, start: Wizard)
    requires start.stage == Init
    ensures InStep(Console(Executor([], []), start, [])) && Traced(rules, start, Console(Executor([], []), start, []))
  {
    EmptyAnswers();
    EmptyCases();
  }

  /** No line at the login prompt is lost, and after five calls and one for each time new terms came up it is over. */
  lemma SittingMoves(rules: Rules, start: Wizard, first: Server, lines: seq<(Text, Server)>, line: Text, server: Server)
    requires start.stage == Init
    ensures var c := Sitting(rules, start, first, lines);
            c.Console? && c.wizard.stage == Login ==>
              var after := FeedConsole(rules, c, Some(line), server);
              after.Console? && after.wizard.stage != Login && after.wizard.password == Some(line)
    ensures var c := Sitting(rules, start, first, lines);
            c.Console? && |c.calls| >= 5 + NewTerms(c.calls) ==>
              c.wizard.stage == Shell || c.wizard.stage == Terminate
  {
    hide Sitting, Run, AllFit, NewTerms, InStep;
    SittingFits(rules, start, first, lines);
    var c := Sitting(rules, start, first, lines);
    if c.Console? {
      if |c.calls| >= 5 + NewTerms(c.calls) {
        SignInEnds(rules, start, c.calls);
      }
      if c.wizard.stage == Login {
        AlwaysSound(rules, start, c.calls);
        OneLine(rules, c, line, server);
      }
    }
  }

  /**
   Whoever is sent away at the console is told why: the message names the answer, of user or server, that was
   the cause.
   */
  lemma SittingNamesCause(rules: Rules, start: Wizard, first: Server, lines: seq<(Text, Server)>) returns (i: nat)
    requires start.stage == Init
    requires Sitting(rules, start, first, lines).Console?
    requires Sitting(rules, start, first, lines).wizard.stage == Terminate
    ensures var c := Sitting(rules, start, first, lines);
            c.wizard.goodbye.Some? && EndedBy(rules, start, c.calls, i, c.wizard.goodbye.value)
  {
    hide Sitting, Run, AllFit, InStep, EndedBy;
    SittingFits(rules, start, first, lines);
    i := EndNamesCause(rules, start, Sitting(rules, start, first, lines).calls);
  }

  lemma OneLine(rules: Rules, c: Console, line: Text, server: Server)
    requires c.Console? && InStep(c) && c.wizard.stage == Login && c.wizard.email.Some?
    ensures var after := FeedConsole(rules, c, Some(line), server);
            after.Console? && after.wizard.stage != Login && after.wizard.password == Some(line)
  {
    hide Answers, Reverse, Somes;
    AnswersLength(c.exec.responses);
    EmptyCases();
    EmptyAnswers();
    FeedConverses(c.exec, Talk(Questions(Login), Answers(c.exec.responses)), Some(line), ToShell);
    assert c.exec.responses == [];
  }

  // ---------------------------------------------------------------- the objects

  class SshWizard {
    const rules: Rules
    var stage: Stage
    var email: Option<Text>
    var session: Option<Session>
    var password: Option<Text>
    var verifyCode: Option<Text>
    var sudoCode: Option<Text>
    var goodbye: Option<Goodbye>
    var neededTerms: Option<Text>
    var acceptedTerms: Option<Text>

    constructor (rules: Rules, email: Option<Text>, session: Option<Session>)
      ensures this.rules == rules
      ensures State() == Wizard(Init, email, session, None, None, None, None, None, None)
    {
      this.rules, stage, this.email, this.session := rules, Init, email, session;
      password, verifyCode, sudoCode, goodbye, neededTerms, acceptedTerms := None, None, None, None, None, None;
    }

    function State(): Wizard
      reads this
    {
      Wizard(stage, email, session, password, verifyCode, sudoCode, goodbye, neededTerms, acceptedTerms)
    }

    method Exit(message: Goodbye)
      modifies this`stage, this`goodbye
      ensures Moved(State()) == Bye(old(State()), message)
    {
      goodbye := Some(message);
      stage := Terminate;
    }

    method Fail(text: Text)
      modifies this`stage, this`goodbye
      ensures Moved(State()) == Apply(rules, old(State()), Call.Fail(text))
    {
      Exit(Custom(text));
    }

    method DoLogin(reply: LoginReply) returns (result: LoginResult)
      modifies this`session
      ensures result == LoginResultOf(old(State()), reply) && State() == LoggedIn(old(State()), reply)
    {
      if reply.LoginNoChain? {
        return LoginError;
      }
      if email.None? {
        return InvalidEmail;
      }
      if password.None? {
        return NoPasswordSupplied;
      }
      match reply {
        case Locked => return AccountIsLocked;
        case Unverified => return IsUnverified;
        case Unknown => return Unregistered;
        case Wrong => return IncorrectPassword;
        case Granted =>
          session := Some(UserSession);
          return LoginWithUser;
        case _ => return LoginError;
      }
    }

    method DoSudo(reply: SudoReply) returns (result: SudoResult)
      modifies this`session
      ensures result == SudoResultOf(old(State()), reply) && State() == Lifted(old(State()), reply)
    {
      if sudoCode.None? || sudoCode.value == [] {
        return NoCodeSupplied;
      }
      if reply.SudoNoChain? {
        return SudoError;
      }
      if session != Some(UserSession) {
        return SudoError;
      }
      match reply {
        case WrongCode => return CodeWrong;
        case Raised =>
          session := Some(SudoSession);
          return Success;
        case _ => return SudoError;
      }
    }

    method CreateUser(reply: CreateReply) returns (result: CreateResult)
      modifies this`neededTerms
      ensures result == CreateResultOf(old(State()), reply) && State() == Asked(old(State()), reply)
    {
      if email.None? {
        return NoUsernameSupplied;
      }
      if password.None? {
        return NoPassword;
      }
      match reply {
        case AlreadyExists => return Exists;
        case TermsAsked(terms) =>
          neededTerms := Some(terms);
          return TermsNeeded;
        case BadEmail => return EmailInvalid;
        case CreateFailed => return CreateError;
        case Created => return UserCreated;
      }
    }

    /** Move on to a stage, naming the user; false when there is no name to give. */
    method Enter(next: Stage) returns (ok: bool)
      modifies this`stage
      ensures ok <==> Named(old(State()), next).Moved?
      ensures ok ==> Moved(State()) == Named(old(State()), next)
    {
      if email.None? {
        return false;
      }
      stage := next;
      return true;
    }

    method ProcessInit(reply: QueryReply) returns (ok: bool)
      modifies this`stage, this`goodbye
      ensures ok && Moved(State()) == OnInit(rules, old(State()), reply)
    {
      ok := true;
      if session.Some? {
        stage := Sudo;
      } else if email.None? {
        Exit(InvalidUsername);
      } else if !rules.valid(email.value) {
        Exit(InvalidUsername);
      } else if reply.Found? {
        ok := Enter(Login);
      } else if reply.NotFound? {
        ok := Enter(SignUp);
      } else if reply.Banned? || reply.Suspended? {
        Exit(AccountLocked);
      } else {
        Exit(InternalError);
      }
    }

    method ProcessLogin(responses: seq<Text>, reply: LoginReply) returns (ok: bool)
      modifies this`stage, this`goodbye, this`password, this`session
      ensures ok <==> OnLogin(old(State()), responses, reply).Moved?
      ensures ok ==> Moved(State()) == OnLogin(old(State()), responses, reply)
    {
      password := None;
      if |responses| == 1 {
        password := Some(responses[0]);
      }
      var result := DoLogin(reply);
      ok := true;
      match result {
        case LoginWithUser => ok := Enter(Sudo);
        case IsUnverified => ok := Enter(Verify);
        case Unregistered => ok := Enter(SignUp);
        case NoPasswordSupplied => stage := Login;
        case IncorrectPassword => Exit(WrongPassword);
        case InvalidEmail => Exit(InvalidUsername);
        case AccountIsLocked => Exit(AccountLocked);
        case LoginError => Exit(InternalError);
      }
    }

    method ProcessSudo(responses: seq<Text>, reply: SudoReply) returns (ok: bool)
      modifies this`stage, this`goodbye, this`sudoCode, this`session
      ensures ok <==> OnSudo(old(State()), responses, reply).Moved?
      ensures ok ==> Moved(State()) == OnSudo(old(State()), responses, reply)
    {
      sudoCode := None;
      if |responses| == 1 {
        sudoCode := Some(responses[0]);
      }
      var result := DoSudo(reply);
      ok := true;
      match result {
        case Success => ok := Enter(Shell);
        case CodeWrong => Exit(WrongPassword);
        case NoCodeSupplied => ok := Enter(Shell);
        case SudoError => Exit(InternalError);
      }
    }

    method ProcessSignUp(responses: seq<Text>, reply: CreateReply) returns (ok: bool)
      modifies this`stage, this`goodbye, this`password, this`neededTerms
      ensures ok <==> OnSignUp(old(State()), responses, reply).Moved?
      ensures ok ==> Moved(State()) == OnSignUp(old(State()), responses, reply)
    {
      password := None;
      ok := true;
      if |responses| == 2 {
        if |responses[0]| < 4 {
          Exit(PasswordWeak);
          return;
        }
        if responses[1] != responses[0] {
          Exit(InvalidInput);
          return;
        }
        password := Some(responses[0]);
      }
      var result := CreateUser(reply);
      match result {
        case UserCreated => ok := Enter(Verify);
        case TermsNeeded => ok := Enter(Terms);
        case Exists =>
          ok := email.Some?;
          Exit(AccountExists);
        case EmailInvalid =>
          ok := email.Some?;
          Exit(InvalidUsername);
        case NoPassword => Exit(InvalidInput);
        case NoUsernameSupplied => Exit(InvalidInput);
        case CreateError => Exit(InternalError);
      }
    }

    method ProcessTerms(responses: seq<Text>, reply: CreateReply) returns (ok: bool)
      modifies this`stage, this`goodbye, this`acceptedTerms, this`neededTerms
      ensures ok <==> OnTerms(rules, old(State()), responses, reply).Moved?
      ensures ok ==> Moved(State()) == OnTerms(rules, old(State()), responses, reply)
    {
      acceptedTerms := None;
      ok := true;
      if |responses| == 1 && rules.agrees(responses[0]) {
        acceptedTerms := neededTerms;
      }
      if acceptedTerms.None? {
        Exit(MustAcceptTerms);
        return;
      }
      var result := CreateUser(reply);
      if result.UserCreated? {
        ok := Enter(Verify);
      } else if result.TermsNeeded? {
        ok := Enter(Terms);
      } else {
        Exit(InternalError);
      }
    }

    method ProcessVerify(responses: seq<Text>, reply: LoginReply) returns (ok: bool)
      modifies this`stage, this`goodbye, this`verifyCode, this`session
      ensures ok <==> OnVerify(old(State()), responses, reply).Moved?
      ensures ok ==> Moved(State()) == OnVerify(old(State()), responses, reply)
    {
      verifyCode := None;
      if |responses| == 1 {
        verifyCode := Some(responses[0]);
      }
      var result := DoLogin(reply);
      ok := true;
      if result.LoginWithUser? {
        ok := Enter(Shell);
      } else if result.IncorrectPassword? {
        Exit(WrongVerifyCode);
      } else if result.AccountIsLocked? {
        Exit(AccountLocked);
      } else {
        Exit(InternalError);
      }
    }

    /** Process the answers to the last challenge; false when the wizard panics. */
    method ProcessResponse(responses: seq<Text>, server: Server) returns (ok: bool)
      modifies this
      ensures ok <==> Respond(rules, old(State()), responses, server).Moved?
      ensures ok ==> Moved(State()) == Respond(rules, old(State()), responses, server)
      ensures ok && old(Sound(State())) ==> Sound(State())
    {
      hide OnInit, OnLogin, OnSudo, OnSignUp, OnTerms, OnVerify, Sound;
      if Sound(State()) {
        ApplySound(rules, State(), Process(responses, server));
      }
      ok := true;
      match stage {
        case Init => ok := ProcessInit(server.query);
        case Login => ok := ProcessLogin(responses, server.login);
        case Sudo => ok := ProcessSudo(responses, server.sudo);
        case SignUp => ok := ProcessSignUp(responses, server.create);
        case Terms => ok := ProcessTerms(responses, server.create);
        case Verify => ok := ProcessVerify(responses, server.login);
        case Shell =>
        case Terminate =>
      }
    }

    /** Process the answers and say what comes next. */
    method Advance(responses: seq<Text>, server: Server) returns (ok: bool, action: Action)
      modifies this
      ensures ok <==> Respond(rules, old(State()), responses, server).Moved?
      ensures ok ==> Moved(State()) == Respond(rules, old(State()), responses, server) && action == ActionOf(State())
    {
      hide Respond, Sound;
      ok := ProcessResponse(responses, server);
      match stage {
        case Login => action := Challenge([Password]);
        case Sudo => action := Challenge([AuthenticatorCode]);
        case SignUp => action := Challenge([Password, PasswordAgain]);
        case Terms => action := Challenge([Agree]);
        case Verify => action := Challenge([VerificationCode]);
        case Shell => action := ToShell;
        case _ => action := End(goodbye);
      }
    }
  }

  class WizardExecutor {
    const wizard: SshWizard
    var prompts: seq<Prompt>
    var responses: seq<Text>

    constructor (wizard: SshWizard)
      ensures this.wizard == wizard && State() == Executor([], [])
    {
      this.wizard, prompts, responses := wizard, [], [];
    }

    function State(): Executor
      reads this
    {
      Executor(prompts, responses)
    }

    method PopPrompt() returns (prompt: Prompt)
      requires prompts != []
      modifies this`prompts
      ensures (State(), Prompted(prompt)) == Pop(old(State()))
    {
      prompt := prompts[|prompts| - 1];
      prompts := prompts[..|prompts| - 1];
    }

    /** Put the questions of a challenge on the stack, the first on top, and ask it. */
    method Ask(asked: seq<Prompt>) returns (shown: Shown)
      requires prompts == []
      modifies this`prompts
      ensures (State(), shown) ==
              if asked == [] then (old(State()), Blank) else Pop(old(State()).(prompts := Reverse(asked)))
    {
      var i := |asked|;
      while i > 0
        invariant 0 <= i <= |asked|
        invariant prompts == Reverse(asked[i..])
      {
        i := i - 1;
        assert asked[i..][1..] == asked[i + 1..];
        prompts := prompts + [asked[i]];
      }
      assert asked[0..] == asked;
      if prompts != [] {
        var prompt := PopPrompt();
        return Prompted(prompt);
      }
      return Blank;
    }

    method Feed(data: Option<Text>, server: Server) returns (ok: bool, shown: Shown)
      modifies this, wizard
      ensures var c := FeedConsole(wizard.rules, Console(old(State()), old(wizard.State()), []), data, server);
              ok <==> c.Console?
      ensures var c := FeedConsole(wizard.rules, Console(old(State()), old(wizard.State()), []), data, server);
              ok ==> State() == c.exec && wizard.State() == c.wizard &&
                     shown == Fed(old(State()), data, ActionOf(wizard.State())).1
    {
      hide Respond, ActionOf, Reverse, Sound;
      if data.Some? {
        responses := responses + [data.value];
      }
      if prompts != [] {
        var prompt := PopPrompt();
        return true, Prompted(prompt);
      }
      var answers := responses;
      responses := [];
      var action;
      ok, action := wizard.Advance(answers, server);
      match action {
        case Challenge(asked) =>
          ReverseLength(asked);
          shown := Ask(asked);
        case ToShell => shown := Done;
        case End(message) => shown := Exited(message);
      }
    }
  }
}
