/**
 * The records the application stores and displays: schools (server schema and client type),
 * rental houses and their agents, and users.
 */
module Records {
  import opened Wrappers

  /** A school as the server stores it and the client shows it; the client's optional
      latitude and longitude are not part of this model (see SchoolMap). */
  datatype School = School(
    id: int,
    name: string,
    address: string,
    phone: string,
    email: string,
    isVisited: bool,
    hasQuota: bool,
    comments: string)

  /** One entry of the static school dataset: a school before it is given an id. */
  datatype SchoolData = SchoolData(name: string, address: string, phone: string, email: string)

  /** The body a PATCH of a school may carry: any subset of the three editable fields. */
  datatype SchoolPatch = SchoolPatch(isVisited: Option<bool>, hasQuota: Option<bool>, comments: Option<string>)

  datatype Priority = High | Low

  datatype House = House(
    id: int,
    address: string,
    lat: real,
    lng: real,
    price: real,
    warrantyMonths: int,
    requireInsurance: bool,
    comments: string,
    agentId: int,
    isVisited: bool,
    isNotAvailable: bool,
    priority: Priority)

  datatype Agent = Agent(id: int, name: string, agency: string, address: string, phone: string, email: string, web: string)

  datatype User = User(id: int, username: string, password: string)

  /** A user before it is given an id. */
  datatype InsertUser = InsertUser(username: string, password: string)
}
