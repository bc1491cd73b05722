/** How the client pages and the backend routes fit together: what the
    test-taking page sends is always scored, what the authoring form sends
    stores a valid answer key, and a club's life from creating the
    organisation to joining it. */
module EndToEnd {
  import opened Common
  import opened Scoring
  import Auth
  import Orgs
  import TestRoutes
  import TestPage
  import Authoring

  /** The test page submits its payload to the attempt route. The payload's
      indices are always in range, so a registered caller never meets the
      error path: the attempt is recorded and the score is at most the number
      of questions. */
  method TakeTest(tests: TestRoutes.TestStore, users: Auth.UserStore, session: TestPage.TestSession,
                  testId: TestRoutes.TestId, caller: UserId, confirmed: bool, timeElapsed: nat, now: string)
    returns (r: Option<Result<TestRoutes.ScoreReport>>)
    requires tests.Valid() && session.Valid()
    requires testId in tests.tests && session.questions == tests.tests[testId].questions
    requires caller in users.users
    modifies tests
    ensures tests.Valid() && testId in tests.tests
    ensures r.None? <==> |session.answers| < |session.questions| && !confirmed
    ensures r.None? ==> tests.tests == old(tests.tests)
    ensures r.Some? ==> (r.value.Ok? && r.value.value.score <= r.value.value.total == |session.questions| &&
      |TestRoutes.Log(tests.tests[testId])| == |TestRoutes.Log(old(tests.tests[testId]))| + 1)
  {
    var request := session.Submit(confirmed, timeElapsed);
    if request.None? {
      return None;
    }
    TestPage.PayloadMatchesAnswers(session.questions, session.answers);
    var reply := tests.SubmitAttempt(users, testId, caller, request.value.answers, request.value.timeTaken, now);
    r := Some(reply);
  }

  /** The authoring form submits its questions to the create route. When the
      caller owns the organisation the one new record holds exactly the form's
      title and questions: the same texts and options, and an answer key that
      is the option the select showed. Otherwise the table is unchanged. */
  method PublishTest(tests: TestRoutes.TestStore, orgs: Orgs.OrgStore, form: Authoring.TestForm,
                     orgId: Orgs.OrgId, caller: UserId, freshId: TestRoutes.TestId)
    returns (r: Result<TestRoutes.TestRecord>)
    requires tests.Valid() && form.Valid() && freshId !in tests.tests
    modifies tests
    ensures tests.Valid()
    ensures r.Ok? <==> orgId in orgs.Created(caller)
    ensures r.Err? ==> tests.tests == old(tests.tests)
    ensures r.Ok? ==> (tests.tests == old(tests.tests)[freshId := r.value] &&
      r.value.title == form.title && r.value.questions == Authoring.Payload(form.questions) &&
      |r.value.questions| == |form.questions|)
    ensures r.Ok? ==> (forall i :: 0 <= i < |r.value.questions| ==>
      && r.value.questions[i].q == form.questions[i].question
      && r.value.questions[i].options == form.questions[i].options
      && 0 <= r.value.questions[i].correctIndex < |r.value.questions[i].options| == 4
      && Authoring.SelectValues[r.value.questions[i].correctIndex] == form.questions[i].correctIndex)
  {
    var questions := form.Request();
    Authoring.PayloadFaithful(form.questions);
    r := tests.CreateTest(orgs, orgId, form.title, questions, caller, freshId);
  }

  /** A club is created with the draw 3821, which gives the join code "4821";
      a student joins with that code, after which a second join and a wrong
      password are refused. */
  method ClubScenario()
  {
    var orgs := new Orgs.OrgStore();
    assert Orgs.CodeOfDraw(3821) == "4821";
    assert !orgs.CodeInUse(Orgs.CodeOfDraw([3821][0]));
    var club := orgs.Create("Physics Club", "hash:club-secret", "teacher", "org-1", [3821]);
    assert club.joinCode == "4821";
    var member := StudentJoins(orgs, club);
    JoinRefusals(orgs, member);
  }

  /** The student joins the new club with its code and password, and may then
      view it. */
  method StudentJoins(orgs: Orgs.OrgStore, club: Orgs.Organisation) returns (member: Orgs.Organisation)
    requires orgs.Valid() && orgs.orgs == map["org-1" := club]
    requires club.joinCode == "4821" && club.password == "hash:club-secret"
    requires club.ownerId == "teacher" && club.memberIds == []
    modifies orgs
    ensures orgs.Valid() && orgs.orgs == map["org-1" := member] && member == club.(memberIds := ["student"])
  {
    assert Matches("club-secret", club.password);
    assert club.memberIds + ["student"] == ["student"];
    assert orgs.orgs["org-1"].joinCode == "4821" && orgs.CodeInUse("4821");
    var joined := orgs.Join("4821", "club-secret", "student", Matches);
    assert joined == Ok(club.(memberIds := ["student"]));
    member := joined.value;
    assert orgs.GetById("org-1", "student").Ok?;
  }

  /** The password check of the scenario: the stored hash is "hash:" followed
      by the password. */
  function Matches(password: string, hash: string): bool {
    hash == "hash:" + password
  }

  /** Once the student is a member, joining again is refused with 400, a wrong
      password with 401, and an outsider still cannot view the club. */
  method JoinRefusals(orgs: Orgs.OrgStore, club: Orgs.Organisation)
    requires orgs.Valid() && orgs.orgs == map["org-1" := club]
    requires club.joinCode == "4821" && club.password == "hash:club-secret"
    requires club.ownerId == "teacher" && club.memberIds == ["student"]
    modifies orgs
  {
    assert Matches("club-secret", club.password) && !Matches("guess", club.password);
    assert orgs.orgs["org-1"].joinCode == "4821" && orgs.CodeInUse("4821");
    var again := orgs.Join("4821", "club-secret", "student", Matches);
    assert again == Err(BadRequest, Orgs.AlreadyMember);
    var wrong := orgs.Join("4821", "guess", "visitor", Matches);
    assert wrong == Err(Unauthorized, Orgs.InvalidPassword);
    assert orgs.GetById("org-1", "visitor") == Err(Forbidden, Orgs.AccessDenied);
  }
}
