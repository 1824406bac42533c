/**
 * Vocabulary shared by the React front end: the two roles a visitor can pick,
 * the four dashboard tabs, and what a button does when it is clicked.
 */
module Ui {
  /** The non-null values of `role`; `null` is modelled as `None` where it can occur. */
  datatype Role = Internal | External

  datatype Tab = Upload | Search | Storage | Metrics

  /**
   * The effect of a click: `setRole(...)` on the selection screen,
   * `setActiveTab(...)` in the navigation bar, or the `logout` callback.
   */
  datatype Action = ChooseRole(role: Role) | SelectTab(tab: Tab) | Logout

  /** A rendered `<button>`: its text, its CSS classes and its click handler. */
  datatype Button = Button(text: string, className: string, onClick: Action)

  /** The string a role or tab is written as in the components' state. */
  function RoleName(r: Role): string
  {
    match r
    case Internal => "internal"
    case External => "external"
  }

  function TabName(t: Tab): string
  {
    match t
    case Upload => "upload"
    case Search => "search"
    case Storage => "storage"
    case Metrics => "metrics"
  }

  /** The click handlers of a row of buttons, in order. */
  function Clicks(buttons: seq<Button>): (actions: seq<Action>)
    ensures |actions| == |buttons|
    ensures forall i :: 0 <= i < |buttons| ==> actions[i] == buttons[i].onClick
  {
    if buttons == [] then [] else [buttons[0].onClick] + Clicks(buttons[1..])
  }
}
