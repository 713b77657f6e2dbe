/** Cross-exam: one or two reviewers, none of them the producer, judge every draft
    (internal/plan/exam.go). */
module Exam {
  import opened Text
  import opened Strings
  import opened Policy
  import opened PlanModel

  datatype Config = Config(producer: string, models: seq<string>, blockOnFail: bool)

  datatype Answer = Answer(verdict: string, notes: string)

  datatype Review = Review(verdict: Verdict, notes: string, model: string)

  /** What the ports answer during one exam. */
  datatype ExamPorts = ExamPorts(reviewer: bool, cancelled: bool, now: Time, ask: string -> Option<Answer>, signs: bool)

  datatype ExamError =
    | NoReviewer
    | ExamCancelled
    | BadModel
    | SameModel
    | WrongStatus
    | ReviewerFailed(model: string)
    | Unsigned

  datatype Result<T> = Ok(value: T) | Err(error: ExamError)

  datatype Outcome = Outcome(plan: Plan, exam: CrossExam, returned: bool)

  // ----- reviewers ------------------------------------------------------------------

  function TrimAll(models: seq<string>): (r: seq<string>)
    ensures |r| == |models|
    ensures forall i :: 0 <= i < |r| ==> r[i] == TrimSpace(models[i])
  {
    if models == [] then [] else [TrimSpace(models[0])] + TrimAll(models[1..])
  }

  predicate Named(producer: string, models: seq<string>) {
    forall m <- models :: m != "" && (producer != "" ==> m != producer)
  }

  predicate Distinct(models: seq<string>) { forall j, k :: 0 <= j < k < |models| ==> models[j] != models[k] }

  /** One reviewer or two, named, different from each other and from the producer. */
  predicate Acceptable(cfg: Config) {
    var models := TrimAll(cfg.models);
    1 <= |models| <= 2 && Named(TrimSpace(cfg.producer), models) && Distinct(models)
  }

  predicate Overlong(cfg: Config) { |cfg.models| > 2 }

  predicate Unnamed(cfg: Config) { "" in TrimAll(cfg.models) }

  /** A reviewer is named twice, or is the producer. */
  predicate Repeated(cfg: Config) {
    var models, producer := TrimAll(cfg.models), TrimSpace(cfg.producer);
    (producer != "" && producer in models) || !Distinct(models)
  }

  method NormalizeModels(cfg: Config) returns (r: Result<seq<string>>)
    ensures r.Ok? <==> Acceptable(cfg)
    ensures r.Ok? ==> r.value == TrimAll(cfg.models)
    ensures r == Err(NoReviewer) <==> cfg.models == []
    ensures r.Err? ==> r.error in {NoReviewer, BadModel, SameModel}
    ensures r == Err(BadModel) ==> Overlong(cfg) || Unnamed(cfg)
    ensures r == Err(SameModel) ==> Repeated(cfg)
  {
    hide TrimSpace, Named, Distinct;
    var producer := TrimSpace(cfg.producer);
    var seen: set<string> := {};
    var models: seq<string> := [];
    ghost var all := TrimAll(cfg.models);
    NoModels(producer);
    for i := 0 to |cfg.models|
      invariant models == all[..i] && seen == set m <- models
      invariant Named(producer, models) && Distinct(models)
    {
      var m := TrimSpace(cfg.models[i]);
      assert all[i] == m && all[..i + 1] == models + [m];
      NextModel(producer, all, i);
      if m == "" {
        return Err(BadModel);
      }
      if producer != "" && m == producer {
        return Err(SameModel);
      }
      if m in seen {
        return Err(SameModel);
      }
      seen := seen + {m};
      models := models + [m];
    }
    assert all[..|cfg.models|] == all;
    if |models| == 0 {
      return Err(NoReviewer);
    }
    if |models| > 2 {
      return Err(BadModel);
    }
    return Ok(models);
  }

  lemma NoModels(producer: string)
    ensures Named(producer, []) && Distinct([])
  {
  }

  lemma NextModel(producer: string, all: seq<string>, i: nat)
    requires i < |all| && Named(producer, all[..i]) && Distinct(all[..i])
    ensures var m := all[i];
            && (m == "" || (producer != "" && m == producer) ==> !Named(producer, all))
            && (m in all[..i] ==> !Distinct(all))
            && (m != "" && !(producer != "" && m == producer) && m !in all[..i] ==> Named(producer, all[..i] + [m]) && Distinct(all[..i] + [m]))
  {
    assert all[i] in all;
    if all[i] in all[..i] {
      var j :| 0 <= j < i && all[j] == all[i];
      assert !Distinct(all);
    }
  }

  // ----- verdicts ----------------------------------------------------------------------

  function Lower(s: string): string {
    if s == "" then "" else [if 'A' <= s[0] <= 'Z' then s[0] - 'A' + 'a' else s[0]] + Lower(s[1..])
  }

  /** Anything that is not a known way to pass is a fail. */
  function NormalizeVerdict(v: string): Verdict {
    var word := Lower(TrimSpace(v));
    if word in {"pass", "ok", "allow"} then Pass
    else if word in {"pass_with_notes", "pass-with-notes"} then PassWithNotes
    else Fail
  }

  predicate HasVerdict(reviews: seq<Review>, v: Verdict) { exists r <- reviews :: r.verdict == v }

  /** One fail fails; notes from anyone survive a pass. */
  function Combined(reviews: seq<Review>): Verdict {
    if HasVerdict(reviews, Fail) then Fail
    else if HasVerdict(reviews, PassWithNotes) then PassWithNotes
    else Pass
  }

  function Models(reviews: seq<Review>): seq<string> {
    if reviews == [] then [] else [reviews[0].model] + Models(reviews[1..])
  }

  /** The notes that say anything, each under its reviewer's name when there are several. */
  function Notes(reviews: seq<Review>, several: bool): seq<string> {
    if reviews == [] then []
    else
      var n := TrimSpace(reviews[0].notes);
      var rest := Notes(reviews[1..], several);
      if n == "" then rest else [if several then reviews[0].model + ": " + n else n] + rest
  }

  /** strings.Join with a separator. */
  function JoinWith(parts: seq<string>, sep: string): string {
    if parts == [] then "" else if |parts| == 1 then parts[0] else parts[0] + sep + JoinWith(parts[1..], sep)
  }

  function ExamFrom(reviews: seq<Review>, now: Time): CrossExam {
    CrossExam(Combined(reviews), JoinWith(Models(reviews), ","), JoinWith(Notes(reviews, |reviews| > 1), "\n"), now)
  }

  method CombineReviews(reviews: seq<Review>, now: Time) returns (exam: CrossExam)
    ensures exam == ExamFrom(reviews, now)
  {
    hide TrimSpace, JoinWith, Models, Notes, Combined;
    var models: seq<string>, notes: seq<string>, verdict := [], [], Pass;
    NoneYet(reviews);
    for i := 0 to |reviews|
      invariant models + Models(reviews[i..]) == Models(reviews)
      invariant notes + Notes(reviews[i..], |reviews| > 1) == Notes(reviews, |reviews| > 1)
      invariant verdict == Combined(reviews[..i])
    {
      var r := reviews[i];
      NextReview(reviews, i, models, notes);
      models := models + [r.model];
      var n := TrimSpace(r.notes);
      if n != "" {
        if |reviews| > 1 {
          notes := notes + [r.model + ": " + n];
        } else {
          notes := notes + [n];
        }
      }
      match r.verdict {
        case Fail => verdict := Fail;
        case PassWithNotes =>
          if verdict != Fail {
            verdict := PassWithNotes;
          }
        case Pass =>
      }
    }
    AllSeen(reviews);
    assert models + [] == models && notes + [] == notes;
    return CrossExam(verdict, JoinWith(models, ","), JoinWith(notes, "\n"), now);
  }

  lemma NoneYet(reviews: seq<Review>)
    ensures Combined(reviews[..0]) == Pass
    ensures [] + Models(reviews[0..]) == Models(reviews)
    ensures forall several :: [] + Notes(reviews[0..], several) == Notes(reviews, several)
  {
    assert reviews[0..] == reviews;
  }

  lemma AllSeen(reviews: seq<Review>)
    ensures reviews[..|reviews|] == reviews && Models(reviews[|reviews|..]) == []
    ensures forall several :: Notes(reviews[|reviews|..], several) == []
  {
  }

  lemma NextReview(reviews: seq<Review>, i: nat, models: seq<string>, notes: seq<string>)
    requires i < |reviews|
    ensures var r, several := reviews[i], |reviews| > 1;
            var n := TrimSpace(r.notes);
            var said := if n == "" then [] else [if several then r.model + ": " + n else n];
            && models + Models(reviews[i..]) == models + [r.model] + Models(reviews[i + 1..])
            && notes + Notes(reviews[i..], several) == notes + said + Notes(reviews[i + 1..], several)
            && (n == "" ==> notes + Notes(reviews[i..], several) == notes + Notes(reviews[i + 1..], several))
            && Combined(reviews[..i + 1]) ==
               if r.verdict == Fail || Combined(reviews[..i]) == Fail then Fail
               else if r.verdict == PassWithNotes then PassWithNotes
               else Combined(reviews[..i])
  {
    hide TrimSpace, Combined;
    var r := reviews[i];
    assert reviews[i..][0] == r && reviews[i..][1..] == reviews[i + 1..];
    assert reviews[..i + 1] == reviews[..i] + [r];
    OneMore(reviews[..i], r);
  }

  lemma OneMore(reviews: seq<Review>, r: Review)
    ensures Combined(reviews + [r]) ==
            if r.verdict == Fail || Combined(reviews) == Fail then Fail
            else if r.verdict == PassWithNotes then PassWithNotes
            else Combined(reviews)
  {
    assert forall x :: x in reviews + [r] <==> x in reviews || x == r;
  }

  // ----- the exam ---------------------------------------------------------------------------

  /** The reviews of the models in turn, or the first model that did not answer. */
  function ReviewsFrom(ask: string -> Option<Answer>, models: seq<string>): Result<seq<Review>> {
    if models == [] then Ok([])
    else
      match ask(models[0])
      case None => Err(ReviewerFailed(models[0]))
      case Some(a) =>
        match ReviewsFrom(ask, models[1..])
        case Err(e) => Err(e)
        case Ok(rest) => Ok([Review(NormalizeVerdict(a.verdict), a.notes, models[0])] + rest)
  }

  predicate Examinable(p: Plan) { p.status in {Draft, ChangesRequested, CrossExamining} }

  /** The plan after its reviews. */
  function Judged(p: Plan, cfg: Config, reviews: seq<Review>, now: Time): Outcome {
    var exam := ExamFrom(reviews, now);
    var returned := exam.verdict == Fail && cfg.blockOnFail;
    var out := p.(crossExam := Some(exam), updatedAt := now,
                  status := if returned then ChangesRequested else PendingApproval,
                  reviewComment := if returned then exam.reasoning else p.reviewComment);
    Outcome(out, exam, returned)
  }

  /** A completed exam, or nothing: no part of it counts before the verdict is signed. */
  function ExamResult(p: Plan, cfg: Config, ports: ExamPorts): Option<Outcome> {
    if ports.reviewer && !ports.cancelled && Acceptable(cfg) && Examinable(p) && ports.signs then
      match ReviewsFrom(ports.ask, TrimAll(cfg.models))
      case Ok(reviews) => Some(Judged(p, cfg, reviews, ports.now))
      case Err(_) => None
    else None
  }

  /** What may end an exam without a verdict. */
  predicate Stops(p: Plan, cfg: Config, ports: ExamPorts, e: ExamError) {
    match e
    case NoReviewer => !ports.reviewer || cfg.models == []
    case ExamCancelled => ports.cancelled
    case BadModel => Overlong(cfg) || Unnamed(cfg)
    case SameModel => Repeated(cfg)
    case WrongStatus => !(p.status in {Draft, ChangesRequested, CrossExamining})
    case ReviewerFailed(m) => m in TrimAll(cfg.models) && ports.ask(m).None?
    case Unsigned => !ports.signs
  }

  method Examine(p: Plan, cfg: Config, ports: ExamPorts) returns (r: Result<Outcome>)
    ensures r.Ok? <==> ExamResult(p, cfg, ports).Some?
    ensures r.Ok? ==> r.value == ExamResult(p, cfg, ports).value
    ensures r.Err? ==> Stops(p, cfg, ports, r.error)
  {
    hide Acceptable, Combined, Notes, JoinWith, Models, NormalizeVerdict;
    if !ports.reviewer {
      return Err(NoReviewer);
    }
    if ports.cancelled {
      return Err(ExamCancelled);
    }
    var models := NormalizeModels(cfg);
    if models.Err? {
      return Err(models.error);
    }
    if !(p.status in {Draft, ChangesRequested, CrossExamining}) {
      return Err(WrongStatus);
    }
    var reviews := AskAll(ports.ask, models.value);
    if reviews.Err? {
      return Err(reviews.error);
    }
    var exam := CombineReviews(reviews.value, ports.now);
    var out := p.(crossExam := Some(exam), updatedAt := ports.now);
    var returned := exam.verdict == Fail && cfg.blockOnFail;
    if returned {
      out := out.(status := ChangesRequested, reviewComment := exam.reasoning);
    } else {
      out := out.(status := PendingApproval);
    }
    if !ports.signs {
      return Err(Unsigned);
    }
    return Ok(Outcome(out, exam, returned));
  }

  method AskAll(ask: string -> Option<Answer>, models: seq<string>) returns (r: Result<seq<Review>>)
    ensures r == ReviewsFrom(ask, models)
    ensures r.Err? ==> r.error.ReviewerFailed? && r.error.model in models && ask(r.error.model).None?
  {
    hide NormalizeVerdict;
    var reviews: seq<Review> := [];
    assert models[0..] == models;
    ghost var all := ReviewsFrom(ask, models);
    assert all.Ok? ==> [] + all.value == all.value;
    for i := 0 to |models|
      invariant ReviewsFrom(ask, models) ==
                match ReviewsFrom(ask, models[i..])
                case Err(e) => Err(e)
                case Ok(rest) => Ok(reviews + rest)
    {
      assert models[i..][0] == models[i] && models[i..][1..] == models[i + 1..];
      var answer := ask(models[i]);
      if answer.None? {
        return Err(ReviewerFailed(models[i]));
      }
      var review := Review(NormalizeVerdict(answer.value.verdict), answer.value.notes, models[i]);
      ghost var rest := ReviewsFrom(ask, models[i + 1..]);
      assert rest.Ok? ==> reviews + ([review] + rest.value) == reviews + [review] + rest.value;
      reviews := reviews + [review];
    }
    assert reviews + [] == reviews;
    return Ok(reviews);
  }

  // ----- what an exam means -----------------------------------------------------------------------

  lemma {:induction false} EveryModelReviewed(ask: string -> Option<Answer>, models: seq<string>)
    requires ReviewsFrom(ask, models).Ok?
    ensures var reviews := ReviewsFrom(ask, models).value;
            && |reviews| == |models|
            && forall i :: 0 <= i < |models| ==>
                 && ask(models[i]).Some? && reviews[i].model == models[i]
                 && reviews[i].verdict == NormalizeVerdict(ask(models[i]).value.verdict)
  {
    hide NormalizeVerdict;
    if models != [] {
      EveryModelReviewed(ask, models[1..]);
    }
  }

  /** Some review has the verdict exactly when some model answered with it. */
  lemma VerdictsAgree(ask: string -> Option<Answer>, models: seq<string>, reviews: seq<Review>, v: Verdict)
    requires |reviews| == |models|
    requires forall i :: 0 <= i < |models| ==> ask(models[i]).Some? && reviews[i].verdict == NormalizeVerdict(ask(models[i]).value.verdict)
    ensures (forall m <- models :: ask(m).Some?)
    ensures HasVerdict(reviews, v) <==> exists m <- models :: ask(m).Some? && NormalizeVerdict(ask(m).value.verdict) == v
  {
    hide NormalizeVerdict;
    if HasVerdict(reviews, v) {
      var i :| 0 <= i < |reviews| && reviews[i].verdict == v;
      assert models[i] in models;
    }
    if exists m <- models :: ask(m).Some? && NormalizeVerdict(ask(m).value.verdict) == v {
      var i :| 0 <= i < |models| && NormalizeVerdict(ask(models[i]).value.verdict) == v;
      assert reviews[i] in reviews;
    }
  }

  // ----- what a reviewer can answer ----------------------------------------------------------

  /** The same letters, up to ASCII case. */
  predicate SameLetters(s: string, word: string) {
    |s| == |word| && forall i :: 0 <= i < |s| ==> s[i] == word[i] || ('A' <= s[i] <= 'Z' && word[i] == s[i] - 'A' + 'a')
  }

  /** The answer is the word, up to case and the white space around it. */
  ghost predicate Says(answer: string, word: string) {
    exists pre, mid, post :: Around(answer, pre, mid, post) && SameLetters(mid, word)
  }

  ghost predicate SaysPass(answer: string) { Says(answer, "pass") || Says(answer, "ok") || Says(answer, "allow") }

  ghost predicate SaysNotes(answer: string) { Says(answer, "pass_with_notes") || Says(answer, "pass-with-notes") }

  predicate PlainWord(word: string) { forall c <- word :: !('A' <= c <= 'Z') && !White(c) }

  lemma {:induction false} LowerIs(s: string, word: string)
    requires PlainWord(word)
    ensures Lower(s) == word <==> SameLetters(s, word)
  {
    if s != "" && word != "" {
      assert word[0] in word && word == [word[0]] + word[1..];
      LowerIs(s[1..], word[1..]);
      if SameLetters(s[1..], word[1..]) {
        forall i | 0 < i < |s| ensures s[i] == word[i] || ('A' <= s[i] <= 'Z' && word[i] == s[i] - 'A' + 'a') {
          assert s[1..][i - 1] == s[i] && word[1..][i - 1] == word[i];
        }
      }
      if SameLetters(s, word) {
        forall i | 0 <= i < |s[1..]| ensures s[1..][i] == word[1..][i] || ('A' <= s[1..][i] <= 'Z' && word[1..][i] == s[1..][i] - 'A' + 'a') {
          assert s[1..][i] == s[i + 1] && word[1..][i] == word[i + 1];
        }
      }
    }
  }

  lemma SameLettersTight(s: string, word: string)
    requires PlainWord(word) && SameLetters(s, word)
    ensures Tight(s)
  {
    if s != "" {
      assert word[0] in word && word[|word| - 1] in word;
    }
  }

  lemma SaysIff(answer: string, word: string)
    requires PlainWord(word)
    ensures Says(answer, word) <==> Lower(TrimSpace(answer)) == word
  {
    hide TrimSpace, Lower, PlainWord;
    var pre, post := TrimSpaceMeans(answer);
    assert Around(answer, pre, TrimSpace(answer), post);
    LowerIs(TrimSpace(answer), word);
    if Says(answer, word) {
      var pre', mid, post' :| Around(answer, pre', mid, post') && SameLetters(mid, word);
      SameLettersTight(mid, word);
      TrimSpaceOf(pre', mid, post');
    }
  }

  /** Three words pass, two pass with notes, and every other answer is a fail. */
  lemma AnswersCount(answer: string)
    ensures NormalizeVerdict(answer) == Pass <==> SaysPass(answer)
    ensures NormalizeVerdict(answer) == PassWithNotes <==> SaysNotes(answer)
    ensures NormalizeVerdict(answer) == Fail <==> !SaysPass(answer) && !SaysNotes(answer)
  {
    hide TrimSpace, Lower, Says;
    SaysIff(answer, "pass");
    SaysIff(answer, "ok");
    SaysIff(answer, "allow");
    SaysIff(answer, "pass_with_notes");
    SaysIff(answer, "pass-with-notes");
  }

  lemma DifferentWord(answer: string, word: string, other: string)
    requires PlainWord(word) && PlainWord(other) && word != other && Says(answer, word)
    ensures !Says(answer, other)
  {
    hide TrimSpace, Lower, Says;
    SaysIff(answer, word);
    SaysIff(answer, other);
  }

  /** Among them the words of refusal, and saying nothing. */
  lemma RefusalsFail(answer: string, word: string)
    requires word in {"fail", "deny", "block", ""} && Says(answer, word)
    ensures NormalizeVerdict(answer) == Fail
  {
    hide TrimSpace, Lower, Says;
    DifferentWord(answer, word, "pass");
    DifferentWord(answer, word, "ok");
    DifferentWord(answer, word, "allow");
    DifferentWord(answer, word, "pass_with_notes");
    DifferentWord(answer, word, "pass-with-notes");
    hide PlainWord;
    AnswersCount(answer);
  }

  // ----- the exam, said of the answers ------------------------------------------------------------

  ghost predicate Refuses(answer: string) { !SaysPass(answer) && !SaysNotes(answer) }

  /** A plan goes on to the operator with a clean pass only when every configured model,
      none of them the producer, was asked and answered in a word that passes; and it goes
      back exactly when one of them answered in no such word, nor passed it with notes, and
      the agent blocks on failure. */
  lemma CleanPassMeansEveryoneAgreed(p: Plan, cfg: Config, ports: ExamPorts)
    requires Acceptable(cfg) && ReviewsFrom(ports.ask, TrimAll(cfg.models)).Ok?
    ensures var o, models := Judged(p, cfg, ReviewsFrom(ports.ask, TrimAll(cfg.models)).value, ports.now), TrimAll(cfg.models);
            && (forall m <- models :: ports.ask(m).Some?)
            && (o.exam.verdict == Pass <==> forall m <- models :: ports.ask(m).Some? && SaysPass(ports.ask(m).value.verdict))
            && (o.exam.verdict == Fail <==> exists m <- models :: ports.ask(m).Some? && Refuses(ports.ask(m).value.verdict))
            && (o.returned <==> cfg.blockOnFail && exists m <- models :: ports.ask(m).Some? && Refuses(ports.ask(m).value.verdict))
            && o.plan.status == (if o.returned then ChangesRequested else PendingApproval)
            && TrimSpace(cfg.producer) !in models
  {
    var models := TrimAll(cfg.models);
    var reviews := ReviewsFrom(ports.ask, models).value;
    EveryModelReviewed(ports.ask, models);
    hide NormalizeVerdict, TrimSpace, Notes, JoinWith, Models, TrimAll, ReviewsFrom, HasVerdict, SaysPass, SaysNotes;
    VerdictsAgree(ports.ask, models, reviews, Fail);
    VerdictsAgree(ports.ask, models, reviews, PassWithNotes);
    forall m | m in models ensures ports.ask(m).Some? && (NormalizeVerdict(ports.ask(m).value.verdict) == Pass <==> SaysPass(ports.ask(m).value.verdict))
                                   && (NormalizeVerdict(ports.ask(m).value.verdict) == Fail <==> Refuses(ports.ask(m).value.verdict))
    {
      AnswersCount(ports.ask(m).value.verdict);
    }
  }

  // ----- what the record of an exam says -------------------------------------------------------------

  /** One review speaks for itself. */
  lemma OneReviewSays(r: Review, now: Time)
    ensures ExamFrom([r], now) == CrossExam(r.verdict, r.model, TrimSpace(r.notes), now)
  {
    hide TrimSpace;
    assert [r][1..] == [];
    assert Models([r]) == [r.model];
    assert Notes([r], false) == if TrimSpace(r.notes) == "" then [] else [TrimSpace(r.notes)];
    CombinedOfOne(r);
  }

  lemma CombinedOfOne(r: Review)
    ensures Combined([r]) == r.verdict
  {
    assert r in [r];
  }

  /** Two are named in order, and what they noted is kept under their names; the worse
      verdict wins. */
  lemma TwoReviewsSay(a: Review, b: Review, now: Time)
    ensures var x, m, n := ExamFrom([a, b], now), TrimSpace(a.notes), TrimSpace(b.notes);
            && x.reviewerModel == a.model + "," + b.model && x.at == now
            && x.verdict == (if a.verdict == Fail || b.verdict == Fail then Fail
                             else if a.verdict == PassWithNotes || b.verdict == PassWithNotes then PassWithNotes else Pass)
            && x.reasoning == if m == "" && n == "" then ""
                              else if m == "" then b.model + ": " + n
                              else if n == "" then a.model + ": " + m
                              else a.model + ": " + m + "\n" + (b.model + ": " + n)
  {
    hide TrimSpace;
    var both := [a, b];
    assert both[1..] == [b] && [b][1..] == [];
    assert Models([]) == [] && Models([b]) == [b.model];
    assert Models(both) == [a.model] + Models([b]) == [a.model, b.model];
    assert Notes([b], true) == if TrimSpace(b.notes) == "" then [] else [b.model + ": " + TrimSpace(b.notes)];
    JoinTwo(a.model, b.model, ",");
    JoinTwo(a.model + ": " + TrimSpace(a.notes), b.model + ": " + TrimSpace(b.notes), "\n");
    CombinedOfOne(a);
    assert both == [a] + [b];
    OneMore([a], b);
  }

  lemma JoinTwo(a: string, b: string, sep: string)
    ensures JoinWith([a, b], sep) == a + sep + b && JoinWith([a], sep) == a && JoinWith([], sep) == ""
  {
    assert [a, b][1..] == [b];
    assert JoinWith([b], sep) == b;
  }
}
