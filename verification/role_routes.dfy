/** The landing page of each role, shared by the pages and the login form. */
module RoleRoutes {
  import opened Common
  import opened Schema

  /** `homeByRole(uloga?)`: each role's home; ADMIN and an undefined role land on `/`. */
  function HomeByRole(uloga: Option<Role>): (path: string)
    ensures path == "/uvoznik/dobavljaci" <==> uloga == Some(Uvoznik)
    ensures path == "/dobavljac/proizvod" <==> uloga == Some(Dobavljac)
    ensures path == "/" <==> uloga.None? || uloga == Some(Admin)
  {
    match uloga
    case Some(Uvoznik) => "/uvoznik/dobavljaci"
    case Some(Dobavljac) => "/dobavljac/proizvod"
    case Some(Admin) => "/"
    case None => "/"
  }
}
