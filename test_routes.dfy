/** The test routes (backend/routes/test.js): creation by the organisation's
    owner, reading, attempt submission with scoring and log append, and the
    leaderboard. The test table is a map from id to record; the organisation
    and user tables are read through their stores. */
module TestRoutes {
  import opened Common
  import opened Scoring
  import Ranking
  import Orgs
  import Auth

  type TestId = string

  /** A stored test. `attempts` is the attempt log as stored: `None` stands for
      a stored value that is not an array, which the routes read as an empty
      log. */
  datatype TestRecord = TestRecord(
    id: TestId, title: string, questions: seq<Question>, orgId: Orgs.OrgId, attempts: Option<seq<Attempt>>)

  /** `Array.isArray(test.attempts) ? test.attempts : []`. */
  function Log(t: TestRecord): seq<Attempt> {
    if t.attempts.Some? then t.attempts.value else []
  }

  /** The body of a successful submission. */
  datatype ScoreReport = ScoreReport(score: nat, total: nat)

  /** The body of the leaderboard route. */
  datatype Leaderboard = Leaderboard(testTitle: string, leaderboard: seq<Attempt>)

  const OnlyOwnerCanCreate := "Only owner can create tests"
  const TestNotFound := "Test not found"
  const SubmitFailed := "Failed to submit attempt"

  class TestStore {
    var tests: map<TestId, TestRecord>

    ghost predicate Valid()
      reads this
    {
      forall id | id in tests :: tests[id].id == id
    }

    constructor ()
      ensures Valid() && tests == map[]
    {
      tests := map[];
    }

    /** The create route: 404 for an unknown organisation, then 403 unless the
        caller owns it; only then is a test stored. */
    method CreateTest(orgs: Orgs.OrgStore, orgId: Orgs.OrgId, title: string, questions: seq<Question>,
                      caller: UserId, freshId: TestId)
      returns (r: Result<TestRecord>)
      requires Valid() && freshId !in tests
      modifies this
      ensures Valid()
      ensures r.Err? ==> (tests == old(tests) &&
        orgs.OwnerCheck(orgId, caller, OnlyOwnerCanCreate) == Err(r.status, r.message))
      ensures r.Ok? <==> orgId in orgs.Created(caller)
      ensures r.Ok? ==> (r.value == TestRecord(freshId, title, questions, orgId, None) &&
        tests == old(tests)[freshId := r.value])
    {
      var check := orgs.OwnerCheck(orgId, caller, OnlyOwnerCanCreate);
      if check.Err? {
        return Err(check.status, check.message);
      }
      var test := TestRecord(freshId, title, questions, orgId, None);
      tests := tests[freshId := test];
      r := Ok(test);
    }

    /** The list route: the tests of an organisation (no access check). */
    function TestsOf(orgId: Orgs.OrgId): (ids: set<TestId>)
      reads this
      ensures forall id :: id in ids <==> id in tests && tests[id].orgId == orgId
    {
      set id | id in tests && tests[id].orgId == orgId
    }

    /** The single-test route. */
    function GetTest(id: TestId): (r: Result<TestRecord>)
      reads this
      ensures r.Err? <==> id !in tests
      ensures r.Err? ==> r == Err(NotFound, TestNotFound)
      ensures r.Ok? ==> r.value == tests[id]
      ensures Valid() && r.Ok? ==> r.value.id == id
    {
      if id in tests then Ok(tests[id]) else Err(NotFound, TestNotFound)
    }

    /** The attempt route: 404 for an unknown test; 500 (the caught exception)
        when an answer's question index is out of range or the caller has no
        user record; otherwise the score is computed, one attempt is appended
        to the log and nothing else changes. */
    method SubmitAttempt(users: Auth.UserStore, testId: TestId, caller: UserId, answers: seq<Answer>,
                         timeTaken: int, now: string)
      returns (r: Result<ScoreReport>)
      requires Valid()
      modifies this
      ensures Valid()
      ensures testId !in old(tests) ==> r == Err(NotFound, TestNotFound) && tests == old(tests)
      ensures testId in old(tests) ==>
        var t := old(tests)[testId];
        if caller !in users.users || !AllInRange(t.questions, answers) then
          r == Err(ServerError, SubmitFailed) && tests == old(tests)
        else
          var score := CountCorrect(t.questions, answers);
          var attempt := Attempt(caller, users.users[caller].name, score, timeTaken, now);
          r == Ok(ScoreReport(score, |t.questions|)) &&
          tests == old(tests)[testId := t.(attempts := Some(Log(t) + [attempt]))]
    {
      if testId !in tests {
        return Err(NotFound, TestNotFound);
      }
      var test := tests[testId];
      var user: Option<Auth.User> := if caller in users.users then Some(users.users[caller]) else None;
      var score := ScoreAnswers(test.questions, answers);
      if score.None? || user.None? {
        return Err(ServerError, SubmitFailed);
      }
      var attempt := Attempt(caller, user.value.name, score.value, timeTaken, now);
      var currentAttempts := Log(test);
      tests := tests[testId := test.(attempts := Some(currentAttempts + [attempt]))];
      r := Ok(ScoreReport(score.value, |test.questions|));
    }

    /** The leaderboard route: the stored log is copied into a fresh array,
        which is sorted in place; the store is not changed. */
    method GetLeaderboard(testId: TestId) returns (r: Result<Leaderboard>)
      ensures testId !in tests ==> r == Err(NotFound, TestNotFound)
      ensures testId in tests ==>
        r == Ok(Leaderboard(tests[testId].title, Ranking.Rank(Log(tests[testId]))))
    {
      if testId !in tests {
        return Err(NotFound, TestNotFound);
      }
      var test := tests[testId];
      var log := Log(test);
      var attempts := new Attempt[|log|](i requires 0 <= i < |log| => log[i]);
      assert attempts[..] == log;
      Ranking.SortInPlace(attempts);
      r := Ok(Leaderboard(test.title, attempts[..]));
    }
  }
}
