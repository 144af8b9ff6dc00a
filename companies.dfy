/** Company membership and staff status (cogs/companies.py). */
module Companies {
  import opened Wrappers
  import opened Database

  /**
   * Staff of a company hold the "governatore" or the "console" role. Either role
   * may be missing from the server (the lookup at start-up gave None), and a
   * missing role is held by nobody.
   */
  function IsStaff(memberRoles: seq<RoleId>, governatore: Option<RoleId>, console: Option<RoleId>): (staff: bool)
    ensures staff <==> exists role :: role in memberRoles && (governatore == Some(role) || console == Some(role))
    ensures governatore.None? && console.None? ==> !staff
  {
    if governatore.Some? && governatore.value in memberRoles then
      var role := governatore.value;
      assert role in memberRoles && governatore == Some(role);
      true
    else if console.Some? && console.value in memberRoles then
      var role := console.value;
      assert role in memberRoles && console == Some(role);
      true
    else false
  }

  /**
   * The company a member belongs to, read from the member's row. No row and a
   * row without a company both mean "not in a company".
   */
  function GetCompanyFor(users: map<MemberId, User>, member: MemberId): (r: Option<string>)
    ensures member !in users ==> r == None
    ensures member in users ==> r == users[member].companyName
    ensures forall companies :: Tables(users, companies).Valid() && r.Some? ==> r.value in companies
  {
    if member in users then users[member].companyName else None
  }
}
