/** `/api/users`: listing and creating accounts. */
module UsersRoute {
  import opened Domain
  import opened Seqs
  import opened Db

  /** The JSON body of a create request. */
  datatype UserBody = UserBody(username: Text, password: Text, role: Text)

  const RequiredMessage: Text := "Username, password, and role are required"
  const ExistsMessage: Text := "Username already exists"
  const CreateFailedMessage: Text := "Failed to create user"

  predicate MissingRequired(body: UserBody)
  {
    Falsy(body.username) || Falsy(body.password) || Falsy(body.role)
  }

  /** `POST`: check the three fields, then the username, then hash the password
      with the opaque `hash` and insert. A role outside the enumeration makes
      the insert throw, which the handler reports as a 500. */
  method Post(db: Store, body: UserBody, hash: Text -> Text) returns (res: Response<UserSummary>)
    requires db.Valid()
    modifies db
    ensures db.Valid()
    ensures MissingRequired(body) ==>
      res == BadRequest(RequiredMessage) && db.State() == old(db.State())
    ensures !MissingRequired(body) && old(db.HasUsername(body.username)) ==>
      res == Conflict(ExistsMessage) && db.State() == old(db.State())
    ensures !MissingRequired(body) && !old(db.HasUsername(body.username)) && ParseRole(body.role).None? ==>
      res == Unavailable(CreateFailedMessage) && db.State() == old(db.State())
    ensures !MissingRequired(body) && !old(db.HasUsername(body.username)) && ParseRole(body.role).Some? ==>
      var u := User(old(db.nextUserId), body.username, hash(body.password), ParseRole(body.role).value);
      && res == Created(UserSummary(u.id, u.username, u.role))
      && db.State() == old(db.State()).(users := old(db.users) + [u], nextUserId := old(db.nextUserId) + 1)
    ensures res.Created? <==> |db.users| == |old(db.users)| + 1
  {
    if MissingRequired(body) {
      return BadRequest(RequiredMessage);
    }
    if db.HasUsername(body.username) {
      return Conflict(ExistsMessage);
    }
    var hashed := hash(body.password);
    var role := ParseRole(body.role);
    if role.None? {
      return Unavailable(CreateFailedMessage);
    }
    var u := db.InsertUser(body.username, hashed, role.value);
    res := Created(Summary(u));
  }

  function SummaryId(u: UserSummary): int { u.id }

  function Summaries(us: seq<User>): (r: seq<UserSummary>)
    ensures |r| == |us|
    ensures forall i :: 0 <= i < |us| ==> r[i] == Summary(us[i])
  {
    seq(|us|, i requires 0 <= i < |us| => Summary(us[i]))
  }

  /** The resolutions recorded by an account. */
  function ByUser(id: int): TindakLanjut -> bool
  {
    (t: TindakLanjut) => t.idUser == id
  }

  /** `GET`: every account without its password, newest id first, with the
      number of resolutions it recorded. */
  function Get(db: Store): (r: seq<Counted<UserSummary>>)
    requires db.Valid()
    reads db
    ensures multiset(Items(r)) == multiset(Summaries(db.users))
    ensures forall i, j :: 0 <= i < j < |r| ==> r[i].item.id > r[j].item.id
    ensures forall i :: 0 <= i < |r| ==> r[i].count == Count(db.tindakLanjut, ByUser(r[i].item.id))
  {
    var ts := db.tindakLanjut;
    var rows := Summaries(db.users);
    assert DistinctBy(rows, SummaryId) by {
      assert forall i :: 0 <= i < |rows| ==> SummaryId(rows[i]) == UserId(db.users[i]);
    }
    SortDescStrict(rows, SummaryId);
    var sorted := SortDesc(rows, SummaryId);
    ItemsOfWithCounts(sorted, (u: UserSummary) => Count(ts, ByUser(u.id)));
    WithCounts(sorted, (u: UserSummary) => Count(ts, ByUser(u.id)))
  }

  /** A username identifies at most one account of a valid store. Every
      create keeps the store valid, so no sequence of creates makes two. */
  lemma UsernameIdentifiesAccount(db: Store, i: int, j: int)
    requires db.Valid()
    requires 0 <= i < |db.users| && 0 <= j < |db.users|
    requires db.users[i].username == db.users[j].username
    ensures i == j
  {
    assert Username(db.users[i]) == Username(db.users[j]);
  }
}
