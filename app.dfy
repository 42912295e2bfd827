/**
 * The application shell: a single `screen` state that decides which page is
 * mounted, and the page callbacks that overwrite it through `navigateTo`.
 */
module App {
  import opened Wrappers
  import opened Seqs

  /** `AppScreen`. */
  datatype Screen = Login | Dashboard | Calendar

  /** The page components the shell can mount. */
  datatype Page = LoginPage | DashboardPage | CalendarPage

  /** The callbacks the pages receive: `onLoginSuccess`, `onSair`, `onAbrirCalendario`, `onVoltar`. */
  datatype Acao = LoginSuccess | Sair | AbrirCalendario | Voltar

  /**
   * The children the shell renders for a screen: the three guarded
   * `screen === … && <Page/>` expressions, in order.
   */
  function Shown(screen: Screen): (pages: seq<Page>)
    ensures |pages| == 1
    ensures pages[0] == LoginPage <==> screen == Login
    ensures pages[0] == DashboardPage <==> screen == Dashboard
    ensures pages[0] == CalendarPage <==> screen == Calendar
  {
    (if screen == Login then [LoginPage] else []) +
    (if screen == Dashboard then [DashboardPage] else []) +
    (if screen == Calendar then [CalendarPage] else [])
  }

  /**
   * The screen a callback navigates to, when the page that owns that callback
   * is the one mounted; `None` when it is not mounted and so cannot fire.
   */
  function Target(screen: Screen, acao: Acao): Option<Screen> {
    match (screen, acao)
    case (Login, LoginSuccess) => Some(Dashboard)
    case (Dashboard, Sair) => Some(Login)
    case (Dashboard, AbrirCalendario) => Some(Calendar)
    case (Calendar, Voltar) => Some(Dashboard)
    case _ => None
  }

  /** The screen after an action: the callback's target, or the same screen when no mounted page offers it. */
  function Step(screen: Screen, acao: Acao): Screen {
    match Target(screen, acao)
    case Some(next) => next
    case None => screen
  }

  /** The screens visited by a run of actions from `screen`, the starting screen first. */
  function Trace(screen: Screen, acoes: seq<Acao>): (t: seq<Screen>)
    ensures |t| == |acoes| + 1 && t[0] == screen
    ensures forall i :: 0 <= i < |acoes| ==> t[i + 1] == Step(t[i], acoes[i])
    decreases |acoes|
  {
    if acoes == [] then [screen]
    else
      var rest := Trace(Step(screen, acoes[0]), acoes[1..]);
      [screen] + rest
  }

  /** The shell component: its `useState` field and the callbacks that change it. */
  class Shell {
    var screen: Screen

    /** The first render shows the login page. */
    constructor()
      ensures screen == Login
      ensures Shown(screen) == [LoginPage]
    {
      screen := Login;
    }

    /** `navigateTo(newScreen)`: `setScreen(newScreen)`. */
    method NavigateTo(newScreen: Screen)
      modifies this
      ensures screen == newScreen
    {
      screen := newScreen;
    }

    /** The login page's `onLoginSuccess`. */
    method OnLoginSuccess()
      requires screen == Login
      modifies this
      ensures screen == Dashboard && screen == Step(old(screen), LoginSuccess)
    {
      NavigateTo(Dashboard);
    }

    /** The dashboard's `onSair`. */
    method OnSair()
      requires screen == Dashboard
      modifies this
      ensures screen == Login && screen == Step(old(screen), Sair)
    {
      NavigateTo(Login);
    }

    /** The dashboard's `onAbrirCalendario`. */
    method OnAbrirCalendario()
      requires screen == Dashboard
      modifies this
      ensures screen == Calendar && screen == Step(old(screen), AbrirCalendario)
    {
      NavigateTo(Calendar);
    }

    /** The calendar page's `onVoltar`. */
    method OnVoltar()
      requires screen == Calendar
      modifies this
      ensures screen == Dashboard && screen == Step(old(screen), Voltar)
    {
      NavigateTo(Dashboard);
    }

    /** A user action: the callback fires when its page is mounted; otherwise nothing changes. */
    method Dispatch(acao: Acao)
      modifies this
      ensures screen == Step(old(screen), acao)
      ensures Target(old(screen), acao).None? ==> screen == old(screen)
    {
      match Target(screen, acao)
      case Some(next) => NavigateTo(next);
      case None =>
    }

    /** A run of user actions, one at a time. */
    method Run(acoes: seq<Acao>)
      modifies this
      ensures screen == Trace(old(screen), acoes)[|acoes|]
    {
      ghost var t := Trace(screen, acoes);
      var i := 0;
      while i < |acoes|
        invariant 0 <= i <= |acoes|
        invariant screen == t[i]
      {
        Dispatch(acoes[i]);
        i := i + 1;
      }
    }
  }

  /** Each transition fires on exactly one action: the dashboard is entered from the login page only on login success. */
  lemma Transitions(screen: Screen, acao: Acao)
    ensures Step(screen, acao) != screen <==> Target(screen, acao).Some?
    ensures screen == Login ==> (Step(screen, acao) == Dashboard <==> acao == LoginSuccess)
    ensures screen == Dashboard ==> (Step(screen, acao) == Login <==> acao == Sair)
    ensures screen == Dashboard ==> (Step(screen, acao) == Calendar <==> acao == AbrirCalendario)
    ensures screen == Calendar ==> (Step(screen, acao) == Dashboard <==> acao == Voltar)
  {
  }

  /** No action leads directly from the login page to the calendar or back. */
  lemma NoDirectLoginCalendar(screen: Screen, acao: Acao)
    ensures screen == Login ==> Step(screen, acao) != Calendar
    ensures screen == Calendar ==> Step(screen, acao) != Login
  {
  }

  /**
   * Along any run, the calendar is only ever entered from the dashboard and
   * only ever left for the dashboard.
   */
  lemma {:induction false} CalendarThroughDashboard(screen: Screen, acoes: seq<Acao>)
    ensures var t := Trace(screen, acoes);
            forall i :: 0 <= i < |acoes| && t[i] != t[i + 1] && (t[i] == Calendar || t[i + 1] == Calendar) ==>
              t[i] == Dashboard || t[i + 1] == Dashboard
  {
    var t := Trace(screen, acoes);
    forall i | 0 <= i < |acoes| && t[i] != t[i + 1] && (t[i] == Calendar || t[i + 1] == Calendar)
      ensures t[i] == Dashboard || t[i + 1] == Dashboard
    {
      NoDirectLoginCalendar(t[i], acoes[i]);
    }
  }

  /**
   * From the first render the calendar cannot be reached without logging in:
   * every run that ends on it holds a login success and, later, the action
   * that opens the calendar.
   */
  lemma CalendarNeedsLogin(start: Screen, acoes: seq<Acao>)
    requires start == Login && Trace(start, acoes)[|acoes|] == Calendar
    ensures exists j, i :: 0 <= j < i < |acoes| && acoes[j] == LoginSuccess && acoes[i] == AbrirCalendario
  {
    var t := Trace(start, acoes);
    assert t[|acoes|] == Calendar;
    var i := FirstArrival(start, acoes, Calendar);
    Transitions(t[i], acoes[i]);
    assert t[i] == Dashboard;
    var j := FirstArrival(start, acoes, Dashboard);
    assert j < i;
    assert t[j] != Calendar;
    Transitions(t[j], acoes[j]);
    assert acoes[j] == LoginSuccess && acoes[i] == AbrirCalendario;
  }

  /**
   * If a run that does not start on `target` reaches it, there is a first
   * action that moves onto it: the screens up to that action are all different.
   */
  lemma FirstArrival(screen: Screen, acoes: seq<Acao>, target: Screen) returns (i: nat)
    requires screen != target
    requires target in Trace(screen, acoes)
    ensures i < |acoes| && Trace(screen, acoes)[i + 1] == target
    ensures forall k :: 0 <= k <= i ==> Trace(screen, acoes)[k] != target
  {
    i := FirstEntry(Trace(screen, acoes), target);
  }
}
