/**
 * The table shared by the user list and the chef list: the search box filters
 * the rows it is given on name, email and phone number, and the fourth
 * column depends on which list the table belongs to. The Status column shows
 * the verification status in both lists; `StatusCell` is the corrected cell.
 */
module UserTable {
  import opened Wrappers
  import Text
  import Seqs

  /** A rating or an experience, which arrive as numbers or as text. */
  datatype Scalar = NumberValue(n: int) | TextValue(s: string)

  /**
   * A row of the table. Every field but the id may be absent; the verification
   * status is declared as always present, but the chef rows never carry one, so
   * it is optional here too.
   */
  datatype User = User(
    id: string,
    firstName: Option<string>,
    lastName: Option<string>,
    email: Option<string>,
    phoneNumber: Option<int>,
    isNewUser: Option<bool>,
    address: Option<string>,
    experience: Option<Scalar>,
    rating: Option<Scalar>,
    speciality: Option<string>,
    status: Option<string>,
    verificationStatus: Option<string>,
    createdAt: Option<string>,
    updatedAt: Option<string>)

  /** `field?.toLowerCase().includes(term.toLowerCase())`: false when the field is absent. */
  predicate TextMatches(field: Option<string>, term: string) {
    field.Some? && Text.Contains(Text.Lower(field.value), Text.Lower(term))
  }

  /** `phoneNumber?.toString().includes(term)`: the term as typed, not lower-cased. */
  predicate PhoneMatches(phone: Option<int>, term: string) {
    phone.Some? && Text.Contains(Text.Decimal(phone.value), term)
  }

  predicate UserMatches(u: User, term: string) {
    TextMatches(u.firstName, term) || TextMatches(u.lastName, term)
    || TextMatches(u.email, term) || PhoneMatches(u.phoneNumber, term)
  }

  function FilteredUsers(data: seq<User>, term: string): seq<User> {
    Seqs.Filter(data, u => UserMatches(u, term))
  }

  /**
   * The rows shown are exactly the users that match, each once, in the order of
   * `data`: `idx` lists their positions, increasing.
   */
  lemma FilterKeepsExactly(data: seq<User>, term: string) returns (idx: seq<int>)
    ensures Seqs.SelectedAt(FilteredUsers(data, term), data, idx)
    ensures forall i :: 0 <= i < |data| ==> (i in idx <==> UserMatches(data[i], term))
  {
    idx := Seqs.FilterSelects(data, u => UserMatches(u, term));
  }

  predicate HasSearchableField(u: User) {
    u.firstName.Some? || u.lastName.Some? || u.email.Some? || u.phoneNumber.Some?
  }

  /** With an empty search a user matches iff one of the four searched fields is present. */
  lemma EmptyTermMatches(u: User)
    ensures UserMatches(u, []) <==> HasSearchableField(u)
  {
    if u.firstName.Some? {
      Text.ContainsEmpty(Text.Lower(u.firstName.value));
    }
    if u.lastName.Some? {
      Text.ContainsEmpty(Text.Lower(u.lastName.value));
    }
    if u.email.Some? {
      Text.ContainsEmpty(Text.Lower(u.email.value));
    }
    if u.phoneNumber.Some? {
      Text.ContainsEmpty(Text.Decimal(u.phoneNumber.value));
    }
  }

  /** With an empty search the table shows exactly the users with a searched field. */
  lemma EmptyTermShows(data: seq<User>)
    ensures FilteredUsers(data, []) == Seqs.Filter(data, HasSearchableField)
  {
    forall i | 0 <= i < |data|
      ensures UserMatches(data[i], []) == HasSearchableField(data[i])
    {
      EmptyTermMatches(data[i]);
    }
    Seqs.FilterAgree(data, u => UserMatches(u, []), HasSearchableField);
  }

  /** A user with none of the four searched fields is never shown. */
  lemma NeverShownWithoutFields(data: seq<User>, term: string, u: User)
    requires !HasSearchableField(u)
    ensures u !in FilteredUsers(data, term)
  {
  }

  /** Characters that can occur in the decimal text of an integer. */
  predicate NumericText(t: string) {
    forall i :: 0 <= i < |t| ==> Text.IsDigit(t[i]) || t[i] == '-'
  }

  /** The phone test is on the term as typed: only digits and '-' can match it. */
  lemma PhoneTermIsNumeric(phone: Option<int>, term: string)
    requires PhoneMatches(phone, term)
    ensures NumericText(term)
  {
    var d := Text.Decimal(phone.value);
    Text.ContainsIffOccurs(d, term);
    Text.DecimalAlphabet(phone.value);
    var k :| Text.OccursAt(d, term, k);
    forall i | 0 <= i < |term|
      ensures Text.IsDigit(term[i]) || term[i] == '-'
    {
      assert term[i] == d[k + i];
    }
  }

  /**
   * Two terms that are equal after lower-casing select the same rows: names and
   * emails are compared lower-cased, and two such terms that differ contain
   * letters, which never match a phone number.
   */
  lemma FilterIgnoresCase(data: seq<User>, t1: string, t2: string)
    requires Text.Lower(t1) == Text.Lower(t2)
    ensures FilteredUsers(data, t1) == FilteredUsers(data, t2)
  {
    if t1 != t2 {
      assert |t1| == |Text.Lower(t1)| == |t2|;
      var i :| 0 <= i < |t1| && t1[i] != t2[i];
      assert Text.Lower(t1)[i] == Text.Lower(t2)[i];
      Text.LowerCharDiffers(t1[i], t2[i]);
      forall k | 0 <= k < |data|
        ensures UserMatches(data[k], t1) == UserMatches(data[k], t2)
      {
        if PhoneMatches(data[k].phoneNumber, t1) {
          PhoneTermIsNumeric(data[k].phoneNumber, t1);
        }
        if PhoneMatches(data[k].phoneNumber, t2) {
          PhoneTermIsNumeric(data[k].phoneNumber, t2);
        }
      }
      Seqs.FilterAgree(data, u => UserMatches(u, t1), u => UserMatches(u, t2));
    }
  }

  // ---------------------------------------------------------------- columns

  const ChefType := "chef"

  /** What the fourth cell of a row holds. */
  datatype Fourth = Rating(rating: Option<Scalar>) | Phone(phone: Option<int>)

  function FourthHeading(tableType: string): (r: string)
    ensures tableType == ChefType ==> r == "Rating"
    ensures tableType != ChefType ==> r == "Phone Number"
  {
    if tableType == ChefType then "Rating" else "Phone Number"
  }

  function FourthCell(u: User, tableType: string): (r: Fourth)
    ensures r.Rating? <==> tableType == ChefType
    ensures r.Rating? ==> r.rating == u.rating
    ensures r.Phone? ==> r.phone == u.phoneNumber
  {
    if tableType == ChefType then Rating(u.rating) else Phone(u.phoneNumber)
  }

  /** The heading and every cell of the fourth column name the same field. */
  lemma FourthColumnAgrees(u: User, tableType: string)
    ensures FourthHeading(tableType) == "Rating" <==> FourthCell(u, tableType).Rating?
  {
  }

  /** The status cell as the table computes it: the verification status, for both lists. */
  function StatusCellAsWritten(u: User, tableType: string): Option<string> {
    u.verificationStatus
  }

  /**
   * The status cell for a list's own kind of status: verification for users,
   * the active/inactive status the chef list fills in for chefs.
   */
  function StatusCell(u: User, tableType: string): (r: Option<string>)
    ensures tableType == ChefType ==> r == u.status
    ensures tableType != ChefType ==> r == u.verificationStatus
  {
    if tableType == ChefType then u.status else u.verificationStatus
  }
}
