/** The navigation bar: the dashboard link for the signed-in role and the
    light/dark theme switch. */
module Navbar {
  import opened Common
  import LoginPage

  /** The role-to-dashboard table. */
  const RoleMap: map<string, string> := map[
    "exporter" := "/exporter/dashboard",
    "qa_agency" := "/qa-agency/dashboard",
    "importer" := "/importer/dashboard",
    "admin" := "/admin/dashboard"]

  const LoginPath := "/login"

  /** A table entry when the role has one, the login page otherwise (every
      entry is non-empty, so `|| '/login'` only covers a missing entry). */
  function DashboardPath(role: Option<string>): (path: string)
    ensures role.Some? && role.value in RoleMap ==> path == RoleMap[role.value]
    ensures !(role.Some? && role.value in RoleMap) ==> path == LoginPath
  {
    if role.Some? && role.value in RoleMap && RoleMap[role.value] != "" then RoleMap[role.value]
    else LoginPath
  }

  /** The navigation bar links to the same dashboard the login page sends
      a role to; for any other role the two differ, the bar offering the
      login page and the login page the home page. */
  lemma DashboardAgreesWithLogin(role: Option<string>)
    ensures role.Some? && role.value in LoginPage.DashboardRoles ==>
      DashboardPath(role) == LoginPage.RouteForRole(role)
    ensures !(role.Some? && role.value in LoginPage.DashboardRoles) ==>
      DashboardPath(role) == LoginPath && LoginPage.RouteForRole(role) == "/"
  {
    assert RoleMap.Keys == LoginPage.DashboardRoles;
  }

  const Dark := "dark"
  const Light := "light"

  /** The stored theme flips: dark becomes light, anything else dark. */
  function ToggleTheme(prev: string): (next: string)
    ensures next == Light <==> prev == Dark
    ensures next == Dark <==> prev != Dark
  {
    if prev == Dark then Light else Dark
  }

  /** The page is dark exactly when the theme is `dark`. */
  predicate IsDark(theme: string) {
    theme == Dark
  }

  /** Each toggle flips the darkness of the page. */
  lemma ToggleFlipsDarkness(theme: string)
    ensures IsDark(ToggleTheme(theme)) <==> !IsDark(theme)
  {
  }

  /** Toggling twice returns to `dark` or `light`, and from any other stored
      value settles on `light`. */
  lemma ToggleTwice(theme: string)
    ensures theme in {Dark, Light} ==> ToggleTheme(ToggleTheme(theme)) == theme
    ensures theme !in {Dark, Light} ==> ToggleTheme(ToggleTheme(theme)) == Light
  {
  }
}
