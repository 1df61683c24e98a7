/** The search page of script.js: the search mode and its buttons, what a
    search sends, the panels it shows afterwards, and how a user profile is
    rendered. */
module ScriptPage {
  import opened Wrappers
  import opened JsRuntime
  import opened ScriptHistory

  const NoBio := "No bio available."
  const UnknownError := "Unknown error"

  // ------------------------------------------------------- mode and request

  /** The class of a mode button. */
  function ButtonClass(active: bool): (c: string)
    ensures c == "nav-btn active" <==> active
    ensures c == "nav-btn" <==> !active
  {
    if active then "nav-btn active" else "nav-btn"
  }

  function Placeholder(mode: string): (p: string)
    ensures p == "Paste Game Link..." <==> mode == "game"
    ensures p == "Enter Username..." <==> mode != "game"
  {
    if mode == "game" then "Paste Game Link..." else "Enter Username..."
  }

  /** The endpoint a search goes to: any mode other than 'game' asks /user. */
  function Endpoint(mode: string): (e: string)
    ensures e == "/game" <==> mode == "game"
    ensures e == "/user" <==> mode != "game"
  {
    if mode == "game" then "/game" else "/user"
  }

  /** The request behind `fetch`: the endpoint and the (unencoded) query. */
  datatype Request = Request(endpoint: string, query: string)

  /** What search() asks for: nothing when the trimmed input is empty. */
  function PlanSearch(mode: string, inputField: string): (r: Option<Request>)
    ensures r.None? <==> AllSpace(inputField)
    ensures r.Some? ==>
      r.value.endpoint == Endpoint(mode) && r.value.query != [] && IsTrimOf(r.value.query, inputField)
  {
    var input := Trim(inputField);
    if input == [] then None else Some(Request(Endpoint(mode), input))
  }

  // ----------------------------------------------------------- user profile

  /** The fields of a /user answer that updateUserUI reads; None stands for
      a null `bio` or `lastLocation` (a missing `bio` behaves the same). */
  datatype UserProfile = UserProfile(
    displayName: string, name: string, bio: Option<string>, created: string,
    avatar: string, isPlaying: bool, isOnline: bool, lastLocation: Option<string>)

  datatype Presence = Playing | Online | Offline

  /** The branch of updateUserUI that picks the status badge. */
  function PresenceOf(isPlaying: bool, isOnline: bool): (p: Presence)
    ensures p == Playing <==> isPlaying
    ensures p == Online <==> isOnline && !isPlaying
    ensures p == Offline <==> !isOnline && !isPlaying
  {
    if isPlaying then Playing else if isOnline then Online else Offline
  }

  function BadgeText(p: Presence): string {
    match p
    case Playing => "PLAYING"
    case Online => "ONLINE"
    case Offline => "OFFLINE"
  }

  function BadgeClass(p: Presence): string {
    match p
    case Playing => "status-badge ingame"
    case Online => "status-badge online"
    case Offline => "status-badge offline"
  }

  /** A template literal's rendering of a string that may be null. */
  function Interpolate(v: Option<string>): string {
    v.GetOr("null")
  }

  function LocationText(p: Presence, lastLocation: Option<string>): string {
    match p
    case Playing => "Playing: " + Interpolate(lastLocation)
    case Online => "Browsing Website"
    case Offline => "Last Online: Recently"
  }

  /** `data.bio || "No bio available."`. */
  function BioText(bio: Option<string>): (t: string)
    ensures bio.None? || bio.value == "" ==> t == NoBio
    ensures bio.Some? && bio.value != "" ==> t == bio.value
    ensures t != ""
  {
    if bio.Some? && bio.value != "" then bio.value else NoBio
  }

  /** The user panel once updateUserUI has run. */
  datatype UserPanel = UserPanel(
    displayName: string, name: string, bio: string, joined: string, avatar: string,
    statusText: string, statusClass: string, location: string)

  function RenderUser(d: UserProfile): (u: UserPanel)
    ensures u.statusText == "PLAYING" <==> d.isPlaying
    ensures u.statusText == "ONLINE" <==> d.isOnline && !d.isPlaying
    ensures u.statusText == "OFFLINE" <==> !d.isOnline && !d.isPlaying
    ensures u.bio == BioText(d.bio)
    ensures d.isPlaying ==> u.location == "Playing: " + Interpolate(d.lastLocation)
  {
    var p := PresenceOf(d.isPlaying, d.isOnline);
    UserPanel(d.displayName, d.name, BioText(d.bio), d.created, d.avatar,
              BadgeText(p), BadgeClass(p), LocationText(p, d.lastLocation))
  }

  // ------------------------------------------------------------ the page

  /** How the fetch of a search ended: an answer with `success`, an answer
      without it (carrying `data.error`, None when absent), or an exception
      with its message. */
  datatype Reply =
    | Accepted(profile: UserProfile)
    | Refused(error: Option<string>)
    | Failed(message: string)

  /** The message showError receives for a reply that is not accepted. */
  function ErrorText(reply: Reply): (m: string)
    requires !reply.Accepted?
    ensures reply.Refused? && (reply.error.None? || reply.error.value == "") ==> m == UnknownError
    ensures reply.Refused? && reply.error.Some? && reply.error.value != "" ==> m == reply.error.value
    ensures reply.Failed? ==> m == reply.message
  {
    match reply
    case Refused(e) => if e.Some? && e.value != "" then e.value else UnknownError
    case Failed(msg) => msg
  }

  /** The parts of the page that setMode and search() change. */
  datatype View = View(
    btnGameClass: string, btnUserClass: string, placeholder: string,
    gameHidden: bool, userHidden: bool, errorHidden: bool, loaderHidden: bool,
    errorText: string, userPanel: Option<UserPanel>)

  /** The page as loaded, in mode 'game'. */
  const InitialView := View(ButtonClass(true), ButtonClass(false), Placeholder("game"),
                            true, true, true, true, "", None)

  /** What setMode(newMode) leaves on the page. */
  function ModeView(v: View, newMode: string): (r: View)
    ensures r.btnGameClass == "nav-btn active" <==> newMode == "game"
    ensures r.btnUserClass == "nav-btn active" <==> newMode == "user"
    ensures r.placeholder == Placeholder(newMode)
    ensures r.gameHidden && r.userHidden && r.errorHidden
    ensures r.loaderHidden == v.loaderHidden && r.errorText == v.errorText && r.userPanel == v.userPanel
  {
    v.(btnGameClass := ButtonClass(newMode == "game"),
       btnUserClass := ButtonClass(newMode == "user"),
       placeholder := Placeholder(newMode),
       gameHidden := true, userHidden := true, errorHidden := true)
  }

  /** What search() leaves on the page once its fetch ended with `reply`. */
  function ResultView(v: View, mode: string, reply: Reply): (r: View)
    ensures r.loaderHidden
    ensures !r.gameHidden <==> reply.Accepted? && mode == "game"
    ensures !r.userHidden <==> reply.Accepted? && mode != "game"
    ensures !r.errorHidden <==> !reply.Accepted?
    ensures !reply.Accepted? ==> r.errorText == ErrorText(reply)
    ensures r.userPanel == if reply.Accepted? && mode != "game" then Some(RenderUser(reply.profile)) else v.userPanel
    ensures r.btnGameClass == v.btnGameClass && r.btnUserClass == v.btnUserClass && r.placeholder == v.placeholder
  {
    var hidden := v.(gameHidden := true, userHidden := true, errorHidden := true, loaderHidden := true);
    match reply
    case Accepted(profile) =>
      if mode == "game" then hidden.(gameHidden := false)
      else hidden.(userHidden := false, userPanel := Some(RenderUser(profile)))
    case _ => hidden.(errorText := ErrorText(reply), errorHidden := false)
  }

  /** The page script.js drives: its `mode`, the elements it changes, and
      localStorage 'bloxHistory'. */
  class Tracker {
    var mode: string
    var view: View
    var history: seq<string>

    constructor (history: seq<string>)
      ensures mode == "game" && view == InitialView && this.history == history
    {
      mode := "game";
      view := InitialView;
      this.history := history;
    }

    method SetMode(newMode: string)
      modifies this
      ensures mode == newMode && view == ModeView(old(view), newMode) && history == old(history)
    {
      mode := newMode;
      view := view.(btnGameClass := ButtonClass(mode == "game"));
      view := view.(btnUserClass := ButtonClass(mode == "user"));
      view := view.(placeholder := Placeholder(mode));
      view := view.(gameHidden := true, userHidden := true, errorHidden := true);
    }

    /** addToHistory: read the list, put a new term in front, drop the last
      entry past five, and write the list back. */
    method AddToHistory(term: string)
      modifies this
      ensures history == Added(old(history), term)
      ensures mode == old(mode) && view == old(view)
    {
      var list := history;
      if term !in list {
        list := [term] + list;
        if |list| > MaxEntries {
          list := list[..|list| - 1];
        }
        history := list;
      }
    }

    /** search(), with the outcome of its fetch given as `reply`. */
    method Search(inputField: string, reply: Reply) returns (sent: Option<Request>)
      modifies this
      ensures sent == PlanSearch(old(mode), inputField)
      ensures sent.None? ==> unchanged(this)
      ensures sent.Some? ==> mode == old(mode) && view == ResultView(old(view), mode, reply)
      ensures sent.Some? ==>
        history == if reply.Accepted? then Added(old(history), sent.value.query) else old(history)
    {
      var input := Trim(inputField);
      if input == [] {
        return None;
      }
      view := view.(loaderHidden := false, gameHidden := true, userHidden := true, errorHidden := true);
      sent := Some(Request(Endpoint(mode), input));
      if reply.Accepted? {
        AddToHistory(input);
        if mode == "game" {
          view := view.(gameHidden := false);
        } else {
          view := view.(userHidden := false, userPanel := Some(RenderUser(reply.profile)));
        }
      } else {
        view := view.(errorText := ErrorText(reply), errorHidden := false);
      }
      view := view.(loaderHidden := true);
    }
  }
}
