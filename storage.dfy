/** The in-memory store `MemStorage`: maps from id to user and to form
    submission, and two counters starting at 1 that the create operations
    post-increment. Ids are therefore dense: exactly 1 .. counter - 1 are in
    use. JavaScript `Map`s iterate in insertion order, which here is id order. */
module Storage {
  import opened Wrappers
  import opened Schema

  datatype InsertUser = InsertUser(username: string, password: string)

  datatype User = User(id: int, username: string, password: string)

  /** A stored submission. `None` stands for a missing value or `null`;
      `submittedAt` is the creation time in milliseconds. */
  datatype FormSubmission = FormSubmission(
    id: int,
    fullName: string,
    email: string,
    phone: Option<string>,
    message: string,
    securityPreferences: Option<seq<string>>,
    submittedAt: int,
    ipAddress: Option<string>,
    userAgent: Option<string>)

  /** `value || null` on an optional string: a missing or empty string
      becomes `null`, any other string is kept. */
  function OrNull(v: Option<string>): (r: Option<string>)
    ensures r.Some? <==> v.Some? && v.value != ""
    ensures r.Some? ==> r == v
  {
    if v.Some? && v.value != "" then v else None
  }

  // ---------------------------------------------------------------------
  // Ordering of the submission list
  // ---------------------------------------------------------------------

  /** Newest first: `submittedAt` never increases along the list. */
  predicate NewestFirst(s: seq<FormSubmission>) {
    forall i, j :: 0 <= i < j < |s| ==> s[i].submittedAt >= s[j].submittedAt
  }

  /** The submissions of `s` stamped at time `t`, in their order in `s`. */
  function StampedAt(s: seq<FormSubmission>, t: int): seq<FormSubmission>
    decreases |s|
  {
    if s == [] then []
    else (if s[0].submittedAt == t then [s[0]] else []) + StampedAt(s[1..], t)
  }

  /** Places `x` before the first element of a newest-first list that is no
      newer than `x`, so `x` precedes the elements it ties with. */
  function Insert(x: FormSubmission, s: seq<FormSubmission>): seq<FormSubmission>
    decreases |s|
  {
    if s == [] then [x]
    else if s[0].submittedAt <= x.submittedAt then [x] + s
    else [s[0]] + Insert(x, s[1..])
  }

  /** The comparator sort `(a, b) => b.submittedAt - a.submittedAt`.
      JavaScript's sort is stable, so the result is the one stable ordering
      by time, newest first. */
  function SortNewestFirst(s: seq<FormSubmission>): (r: seq<FormSubmission>)
    ensures multiset(r) == multiset(s)
    decreases |s|
  {
    if s == [] then []
    else
      var rest := SortNewestFirst(s[1..]);
      InsertPermutes(s[0], rest);
      assert s == [s[0]] + s[1..];
      Insert(s[0], rest)
  }

  lemma StampedAtConcat(a: seq<FormSubmission>, b: seq<FormSubmission>, t: int)
    ensures StampedAt(a + b, t) == StampedAt(a, t) + StampedAt(b, t)
    decreases |a|
  {
    if a != [] {
      StampedAtConcat(a[1..], b, t);
      assert (a + b)[0] == a[0];
      assert (a + b)[1..] == a[1..] + b;
    } else {
      assert a + b == b;
    }
  }

  lemma {:induction false} InsertPermutes(x: FormSubmission, s: seq<FormSubmission>)
    ensures multiset(Insert(x, s)) == multiset(s) + multiset{x}
    decreases |s|
  {
    if s != [] && s[0].submittedAt > x.submittedAt {
      InsertPermutes(x, s[1..]);
      assert s == [s[0]] + s[1..];
    }
  }

  lemma {:induction false} InsertSorted(x: FormSubmission, s: seq<FormSubmission>)
    requires NewestFirst(s)
    ensures NewestFirst(Insert(x, s))
    decreases |s|
  {
    if s != [] && s[0].submittedAt > x.submittedAt {
      InsertSorted(x, s[1..]);
      InsertPermutes(x, s[1..]);
      var rest := Insert(x, s[1..]);
      var r := [s[0]] + rest;
      forall j | 0 < j < |r| ensures r[0].submittedAt >= r[j].submittedAt {
        assert r[j] == rest[j - 1];
        assert r[j] in multiset(s[1..]) + multiset{x};
        if r[j] != x {
          assert r[j] in s[1..];
          var k :| 0 <= k < |s[1..]| && s[1..][k] == r[j];
          assert s[k + 1] == r[j];
        }
      }
    }
  }

  lemma {:induction false} InsertStable(x: FormSubmission, s: seq<FormSubmission>, t: int)
    requires NewestFirst(s)
    ensures StampedAt(Insert(x, s), t) == (if x.submittedAt == t then [x] else []) + StampedAt(s, t)
    decreases |s|
  {
    if s == [] {
      assert Insert(x, s) == [x] + [];
      StampedAtConcat([x], [], t);
    } else if s[0].submittedAt <= x.submittedAt {
      StampedAtConcat([x], s, t);
    } else {
      InsertStable(x, s[1..], t);
      StampedAtConcat([s[0]], Insert(x, s[1..]), t);
      StampedAtConcat([s[0]], s[1..], t);
      assert s == [s[0]] + s[1..];
    }
  }

  /** The sort returns a permutation of its input, newest first, in which
      submissions with the same time keep their input order. */
  lemma {:induction false} SortCorrect(s: seq<FormSubmission>)
    ensures NewestFirst(SortNewestFirst(s))
    ensures multiset(SortNewestFirst(s)) == multiset(s)
    ensures forall t :: StampedAt(SortNewestFirst(s), t) == StampedAt(s, t)
    decreases |s|
  {
    if s != [] {
      SortCorrect(s[1..]);
      var rest := SortNewestFirst(s[1..]);
      InsertPermutes(s[0], rest);
      InsertSorted(s[0], rest);
      assert s == [s[0]] + s[1..];
      forall t ensures StampedAt(SortNewestFirst(s), t) == StampedAt(s, t) {
        InsertStable(s[0], rest, t);
        StampedAtConcat([s[0]], s[1..], t);
      }
    }
  }

  /** The values of a map keyed 1 .. `upTo` - 1, in key order: the
      iteration order of a `Map` filled by increasing ids. */
  function InsertionOrder(m: map<int, FormSubmission>, upTo: int): (s: seq<FormSubmission>)
    requires 1 <= upTo && forall id :: 1 <= id < upTo ==> id in m
    ensures |s| == upTo - 1
    ensures forall i :: 0 <= i < |s| ==> s[i] == m[i + 1]
    decreases upTo
  {
    if upTo == 1 then [] else InsertionOrder(m, upTo - 1) + [m[upTo - 1]]
  }

  /** When the keys are exactly 1 .. `upTo` - 1 and each value carries its
      key as id, the list holds every stored value and nothing else. */
  lemma InsertionOrderHoldsAll(m: map<int, FormSubmission>, upTo: int)
    requires 1 <= upTo && forall id :: id in m <==> 1 <= id < upTo
    requires forall id :: id in m ==> m[id].id == id
    ensures forall id :: id in m ==> m[id] in InsertionOrder(m, upTo)
    ensures forall x :: x in InsertionOrder(m, upTo) ==> x.id in m && m[x.id] == x
  {
    var s := InsertionOrder(m, upTo);
    forall id | id in m ensures m[id] in s {
      assert s[id - 1] == m[id];
    }
    forall x | x in s ensures x.id in m && m[x.id] == x {
      var i :| 0 <= i < |s| && s[i] == x;
      assert m[i + 1] == x;
    }
  }

  // ---------------------------------------------------------------------
  // The store
  // ---------------------------------------------------------------------

  class MemStorage {
    var users: map<int, User>
    var submissions: map<int, FormSubmission>
    var currentUserId: int
    var currentSubmissionId: int

    /** Ids are handed out from 1 without gaps, and every record is stored
        under its own id. */
    ghost predicate Valid()
      reads this
    {
      && 1 <= currentUserId
      && 1 <= currentSubmissionId
      && (forall id :: id in users <==> 1 <= id < currentUserId)
      && (forall id :: id in users ==> users[id].id == id)
      && (forall id :: id in submissions <==> 1 <= id < currentSubmissionId)
      && (forall id :: id in submissions ==> submissions[id].id == id)
    }

    constructor ()
      ensures Valid()
      ensures users == map[] && submissions == map[]
      ensures currentUserId == 1 && currentSubmissionId == 1
    {
      users := map[];
      submissions := map[];
      currentUserId := 1;
      currentSubmissionId := 1;
    }

    /** `getUser`: the user stored under `id`, or `None` for any id not
        handed out; absence is an answer, never a failure. */
    function GetUser(id: int): (r: Option<User>)
      reads this
      requires Valid()
      ensures r.Some? <==> 1 <= id < currentUserId
      ensures r.Some? ==> r.value.id == id && r.value == users[id]
    {
      if id in users then Some(users[id]) else None
    }

    /** `find` over the users in insertion order, starting at id `from`. */
    function FindUser(username: string, from: int): (r: Option<User>)
      reads this
      requires Valid() && 1 <= from <= currentUserId
      ensures r.Some? ==>
        && from <= r.value.id < currentUserId
        && users[r.value.id] == r.value
        && r.value.username == username
        && forall id :: from <= id < r.value.id ==> users[id].username != username
      ensures r.None? ==> forall id :: from <= id < currentUserId ==> users[id].username != username
      decreases currentUserId - from
    {
      if from == currentUserId then None
      else if users[from].username == username then Some(users[from])
      else FindUser(username, from + 1)
    }

    /** `getUserByUsername`: the first user, in insertion order, with that
        username, or `None` when no user has it. */
    function GetUserByUsername(username: string): (r: Option<User>)
      reads this
      requires Valid()
      ensures r.Some? ==> r.value.id in users && users[r.value.id] == r.value && r.value.username == username
      ensures r.Some? ==> forall id :: id in users && id < r.value.id ==> users[id].username != username
      ensures r.None? ==> forall id :: id in users ==> users[id].username != username
    {
      FindUser(username, 1)
    }

    /** `createUser`: stores the user under the next id and returns it. */
    method CreateUser(insertUser: InsertUser) returns (user: User)
      requires Valid()
      modifies this
      ensures Valid()
      ensures user == User(old(currentUserId), insertUser.username, insertUser.password)
      ensures currentUserId == old(currentUserId) + 1
      ensures forall id :: id in old(users) ==> id < user.id
      ensures users == old(users)[user.id := user]
      ensures submissions == old(submissions) && currentSubmissionId == old(currentSubmissionId)
      ensures GetUser(user.id) == Some(user)
      ensures GetUserByUsername(user.username) ==
        if old(GetUserByUsername(insertUser.username)).Some? then old(GetUserByUsername(insertUser.username))
        else Some(user)
    {
      ghost var before := GetUserByUsername(insertUser.username);
      var id := currentUserId;
      currentUserId := currentUserId + 1;
      user := User(id, insertUser.username, insertUser.password);
      users := users[id := user];
      var after := GetUserByUsername(insertUser.username);
      if before.Some? {
        assert users[before.value.id] == before.value;
        assert after.Some? && after.value.id <= before.value.id;
      } else {
        assert users[id] == user;
        assert after.Some? && after.value.id == id;
      }
    }

    /** `getFormSubmission`: the submission stored under `id`, or `None`. */
    function GetFormSubmission(id: int): (r: Option<FormSubmission>)
      reads this
      requires Valid()
      ensures r.Some? <==> 1 <= id < currentSubmissionId
      ensures r.Some? ==> r.value.id == id && r.value == submissions[id]
    {
      if id in submissions then Some(submissions[id]) else None
    }

    /** `getFormSubmissions`: every stored submission once, newest first,
        submissions with the same time in the order they were created. */
    function GetFormSubmissions(): (r: seq<FormSubmission>)
      reads this
      requires Valid()
      ensures NewestFirst(r)
      ensures multiset(r) == multiset(InsertionOrder(submissions, currentSubmissionId))
      ensures forall t :: StampedAt(r, t) == StampedAt(InsertionOrder(submissions, currentSubmissionId), t)
      ensures forall id :: id in submissions ==> submissions[id] in r
      ensures forall x :: x in r ==> x.id in submissions && submissions[x.id] == x
    {
      var all := InsertionOrder(submissions, currentSubmissionId);
      SortCorrect(all);
      InsertionOrderHoldsAll(submissions, currentSubmissionId);
      var r := SortNewestFirst(all);
      assert forall x :: x in r <==> x in multiset(r);
      r
    }

    /** `createFormSubmission`: stores the parsed submission under the next
        id with time `now`, turning a missing or empty IP address or user
        agent into `null`. Earlier submissions are untouched, the new id is
        larger than every earlier one, and the new submission is found by id
        and listed. */
    method CreateFormSubmission(submission: InsertFormSubmission, ipAddress: Option<string>,
                                userAgent: Option<string>, now: int)
      returns (formSubmission: FormSubmission)
      requires Valid()
      modifies this
      ensures Valid()
      ensures formSubmission == FormSubmission(
        old(currentSubmissionId), submission.fullName, submission.email, submission.phone,
        submission.message, submission.securityPreferences, now, OrNull(ipAddress), OrNull(userAgent))
      ensures currentSubmissionId == old(currentSubmissionId) + 1
      ensures forall id :: id in old(submissions) ==> id < formSubmission.id
      ensures submissions == old(submissions)[formSubmission.id := formSubmission]
      ensures users == old(users) && currentUserId == old(currentUserId)
      ensures GetFormSubmission(formSubmission.id) == Some(formSubmission)
      ensures forall id :: id != formSubmission.id ==> GetFormSubmission(id) == old(GetFormSubmission(id))
      ensures formSubmission in GetFormSubmissions()
    {
      var id := currentSubmissionId;
      currentSubmissionId := currentSubmissionId + 1;
      formSubmission := FormSubmission(
        id, submission.fullName, submission.email, submission.phone, submission.message,
        submission.securityPreferences, now, OrNull(ipAddress), OrNull(userAgent));
      submissions := submissions[id := formSubmission];
      assert submissions[id] == formSubmission;
    }
  }

  /** Two submissions created one after the other get consecutive ids, the
      first one 1 in a fresh store. */
  method CreateTwice(a: InsertFormSubmission, b: InsertFormSubmission, now: int, later: int)
    returns (first: FormSubmission, second: FormSubmission)
    ensures first.id == 1 && second.id == 2
    ensures first.submittedAt == now && second.submittedAt == later
  {
    var store := new MemStorage();
    first := store.CreateFormSubmission(a, None, None, now);
    second := store.CreateFormSubmission(b, None, None, later);
  }
}
