/**
 * The chef list: each chef the server sends becomes a row of the shared user
 * table. The list's page buttons are those of `ListView.ListPage`.
 */
module ChefService {
  import opened Wrappers
  import Text
  import UserTable
  import Seqs

  /** A chef as the server sends it. */
  datatype Chef = Chef(
    id: string,
    firstname: string,
    lastname: string,
    email: string,
    experience: int,
    rating: int,
    speciality: seq<string>,
    isActive: bool,
    createdAt: string,
    updatedAt: string)

  const SpecialitySeparator := ", "

  /** The row of the user table for one chef; fields the mapping does not set are absent. */
  function FormatChef(c: Chef): UserTable.User {
    UserTable.User(
      id := c.id,
      firstName := Some(c.firstname),
      lastName := Some(c.lastname),
      email := Some(c.email),
      phoneNumber := None,
      isNewUser := None,
      address := None,
      experience := Some(UserTable.NumberValue(c.experience)),
      rating := Some(UserTable.NumberValue(c.rating)),
      speciality := Some(Text.Join(c.speciality, SpecialitySeparator)),
      status := Some(if c.isActive then "Active" else "Inactive"),
      verificationStatus := None,
      createdAt := None,
      updatedAt := None)
  }

  /** `formatChefData`: `chefs.map(...)`. */
  function FormatChefData(chefs: seq<Chef>): (rows: seq<UserTable.User>)
    ensures |rows| == |chefs|
  {
    seq(|chefs|, i requires 0 <= i < |chefs| => FormatChef(chefs[i]))
  }

  /**
   * One row per chef, in the same order and with the same id; names come from
   * `firstname`/`lastname`, email, experience and rating are copied, the
   * specialities are joined with ", ", and the status is "Active" exactly for
   * active chefs.
   */
  lemma FormatChefRows(chefs: seq<Chef>)
    ensures |FormatChefData(chefs)| == |chefs|
    ensures forall i :: 0 <= i < |chefs| ==>
      var row, c := FormatChefData(chefs)[i], chefs[i];
      && row.id == c.id
      && row.firstName == Some(c.firstname) && row.lastName == Some(c.lastname)
      && row.email == Some(c.email)
      && row.experience == Some(UserTable.NumberValue(c.experience))
      && row.rating == Some(UserTable.NumberValue(c.rating))
      && row.speciality == Some(Text.Join(c.speciality, ", "))
      && (row.status == Some("Active") <==> c.isActive)
      && (row.status == Some("Inactive") <==> !c.isActive)
  {
  }

  /**
   * The joined text keeps the list: for a non-empty list of specialities with
   * no comma and no surrounding white space, splitting it on ',' and trimming
   * each piece gives the list back.
   */
  lemma SpecialityRoundTrip(c: Chef)
    requires c.speciality != []
    requires forall i :: 0 <= i < |c.speciality| ==> ',' !in c.speciality[i] && Text.Trimmed(c.speciality[i])
    ensures Text.SplitTrim(FormatChef(c).speciality.value, ',') == c.speciality
  {
    Text.SplitTrimJoin(c.speciality, ',');
  }

  /** Every chef row has a first name, so an empty search shows every chef. */
  lemma EmptySearchShowsAllChefs(chefs: seq<Chef>)
    ensures UserTable.FilteredUsers(FormatChefData(chefs), []) == FormatChefData(chefs)
  {
    var rows := FormatChefData(chefs);
    forall i | 0 <= i < |rows|
      ensures UserTable.UserMatches(rows[i], [])
    {
      UserTable.EmptyTermMatches(rows[i]);
    }
    Seqs.FilterAll(rows, u => UserTable.UserMatches(u, []));
  }

  /** In the chef list the fourth column is the chef's rating. */
  lemma ChefFourthColumn(c: Chef)
    ensures UserTable.FourthHeading(UserTable.ChefType) == "Rating"
    ensures UserTable.FourthCell(FormatChef(c), UserTable.ChefType) == UserTable.Rating(Some(UserTable.NumberValue(c.rating)))
  {
  }

  /**
   * The table's status column reads the verification status, which the mapping
   * never sets: every chef row shows an empty status.
   */
  lemma ChefStatusAsWrittenEmpty(c: Chef)
    ensures UserTable.StatusCellAsWritten(FormatChef(c), UserTable.ChefType) == None
  {
  }

  /** With the chef list's own status, each row shows whether the chef is active. */
  lemma ChefStatusShown(c: Chef)
    ensures UserTable.StatusCell(FormatChef(c), UserTable.ChefType) == Some(if c.isActive then "Active" else "Inactive")
  {
  }
}
