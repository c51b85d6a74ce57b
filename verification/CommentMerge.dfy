/**
  Merging all comment pages of a post: pages are followed while their numbers grow, and a
  comment already merged is not repeated. What the service answers is arbitrary.
 */
module CommentMerge {
  import opened Wrappers

  datatype Comment = Comment(id: string, text: string)

  /** `usable` is coverage complete or partial; `allPages` the platform's promise that
      following the pages yields every root comment. */
  datatype Answer = Answer(
    usable: bool, comments: seq<Comment>, total: Option<nat>, truncated: bool,
    nextPage: Option<nat>, nextCursor: Option<string>, allPages: bool)

  datatype Merged = Merged(comments: seq<Comment>, total: Option<nat>, complete: bool)

  const MAX_PAGES: nat := 10_000

  predicate HasId(comments: seq<Comment>, id: string) { exists c :: c in comments && c.id == id }

  /** The first comment of each identifier, in order. */
  function Firsts(comments: seq<Comment>): seq<Comment> {
    if |comments| == 0 then []
    else
      var n := |comments| - 1;
      var before := Firsts(comments[..n]);
      if HasId(before, comments[n].id) then before else before + [comments[n]]
  }

  predicate DistinctIds(comments: seq<Comment>) {
    forall i, j :: 0 <= i < j < |comments| ==> comments[i].id != comments[j].id
  }

  /** Each identifier is kept once, and none is lost. */
  lemma {:induction false} FirstsKeepsIds(comments: seq<Comment>)
    ensures DistinctIds(Firsts(comments))
    ensures forall id :: HasId(Firsts(comments), id) <==> HasId(comments, id)
    ensures forall c :: c in Firsts(comments) ==> c in comments
    decreases |comments|
  {
    if |comments| == 0 {
    } else {
      var n := |comments| - 1;
      var before := Firsts(comments[..n]);
      FirstsKeepsIds(comments[..n]);
      assert comments == comments[..n] + [comments[n]];
      forall id
        ensures HasId(comments, id) <==> HasId(comments[..n], id) || id == comments[n].id
        ensures HasId(before + [comments[n]], id) <==> HasId(before, id) || id == comments[n].id
      {
        HasIdAppend(comments[..n], comments[n], id);
        HasIdAppend(before, comments[n], id);
      }
      if !HasId(before, comments[n].id) {
        forall i | 0 <= i < |before|
          ensures before[i].id != comments[n].id
        {
          assert before[i] in before;
        }
      }
    }
  }

  lemma HasIdAppend(comments: seq<Comment>, c: Comment, id: string)
    ensures HasId(comments + [c], id) <==> HasId(comments, id) || id == c.id
  {
    if HasId(comments, id) {
      var d :| d in comments && d.id == id;
      assert d in comments + [c];
    }
    assert c in comments + [c];
  }

  /** One page, comment by comment. */
  method MergePage(comments: seq<Comment>, seen: set<string>, page: seq<Comment>, ghost all: seq<Comment>)
    returns (merged: seq<Comment>, ids: set<string>)
    requires comments == Firsts(all)
    requires forall id :: id in seen <==> HasId(comments, id)
    ensures merged == Firsts(all + page)
    ensures forall id :: id in ids <==> HasId(merged, id)
  {
    merged, ids := comments, seen;
    var i := 0;
    assert all + page[..0] == all;
    while i < |page|
      invariant 0 <= i <= |page|
      invariant merged == Firsts(all + page[..i])
      invariant forall id :: id in ids <==> HasId(merged, id)
    {
      assert (all + page[..i + 1])[..|all| + i] == all + page[..i];
      if page[i].id !in ids {
        forall id
          ensures HasId(merged + [page[i]], id) <==> HasId(merged, id) || id == page[i].id
        {
          HasIdAppend(merged, page[i], id);
        }
        ids := ids + {page[i].id};
        merged := merged + [page[i]];
      }
      i := i + 1;
    }
    assert all + page[..i] == all + page;
  }

  /** Whether the merge asks for another page after this answer. */
  predicate GoesOn(answer: Answer, page: nat) {
    answer.usable && !answer.truncated && answer.nextPage.Some? && answer.nextPage.value > page
  }

  /** The answers to at most `budget` requests, each with the page and cursor the answer
      before it named. */
  function Answers(service: (nat, Option<string>) -> Answer, page: nat, cursor: Option<string>, budget: nat)
    : (answers: seq<Answer>)
    ensures |answers| <= budget
    decreases budget
  {
    if budget == 0 then []
    else
      var answer := service(page, cursor);
      [answer] + if GoesOn(answer, page)
                 then Answers(service, answer.nextPage.value, answer.nextCursor, budget - 1)
                 else []
  }

  /** The pages asked for on the way. */
  function Pages(service: (nat, Option<string>) -> Answer, page: nat, cursor: Option<string>, budget: nat): seq<nat>
    decreases budget
  {
    if budget == 0 then []
    else
      var answer := service(page, cursor);
      [page] + if GoesOn(answer, page)
               then Pages(service, answer.nextPage.value, answer.nextCursor, budget - 1)
               else []
  }

  /** Ever larger numbers, none below `page`. */
  predicate Grows(page: nat, pages: seq<nat>) {
    && (forall k :: 0 <= k < |pages| ==> page <= pages[k])
    && (forall j, k :: 0 <= j < k < |pages| ==> pages[j] < pages[k])
  }

  lemma GrowsBehind(page: nat, rest: seq<nat>)
    requires Grows(page + 1, rest)
    ensures Grows(page, [page] + rest)
  {
    var all := [page] + rest;
    forall j, k | 0 <= j < k < |all| ensures all[j] < all[k] {
      assert all[k] == rest[k - 1];
    }
  }

  /** No page is asked for twice: their numbers only grow. */
  lemma {:induction false} PagesGrow(service: (nat, Option<string>) -> Answer, page: nat, cursor: Option<string>,
                                     budget: nat)
    ensures |Pages(service, page, cursor, budget)| == |Answers(service, page, cursor, budget)|
    ensures Grows(page, Pages(service, page, cursor, budget))
    decreases budget
  {
    if budget == 0 {
    } else {
      var answer := service(page, cursor);
      if GoesOn(answer, page) {
        var rest := Pages(service, answer.nextPage.value, answer.nextCursor, budget - 1);
        PagesGrow(service, answer.nextPage.value, answer.nextCursor, budget - 1);
        assert Pages(service, page, cursor, budget) == [page] + rest;
        GrowsBehind(page, rest);
      } else {
        assert Pages(service, page, cursor, budget) == [page];
      }
    }
  }

  function AllComments(answers: seq<Answer>): seq<Comment> {
    if |answers| == 0 then [] else AllComments(answers[..|answers| - 1]) + answers[|answers| - 1].comments
  }

  function LastTotal(answers: seq<Answer>): Option<nat> {
    if |answers| == 0 then None
    else if answers[|answers| - 1].total.Some? then answers[|answers| - 1].total
    else LastTotal(answers[..|answers| - 1])
  }

  // --------------------------------------------------------------- what the merge keeps

  /** No earlier comment has the identifier of the k-th. */
  predicate IsFirst(comments: seq<Comment>, k: nat)
    requires k < |comments|
  {
    forall j :: 0 <= j < k ==> comments[j].id != comments[k].id
  }

  /** The kept comments stand at these places of the whole, in order. */
  predicate KeptAt(comments: seq<Comment>, kept: seq<Comment>, places: seq<nat>) {
    && |places| == |kept|
    && (forall j, k :: 0 <= j < k < |places| ==> places[j] < places[k])
    && (forall j :: 0 <= j < |places| ==> places[j] < |comments| && kept[j] == comments[places[j]])
    && (forall k :: 0 <= k < |comments| ==> (k in places <==> IsFirst(comments, k)))
  }

  lemma KeptMore(comments: seq<Comment>, kept: seq<Comment>, places: seq<nat>, c: Comment)
    requires KeptAt(comments, kept, places)
    ensures IsFirst(comments + [c], |comments|) ==>
              KeptAt(comments + [c], kept + [c], places + [|comments|])
    ensures !IsFirst(comments + [c], |comments|) ==> KeptAt(comments + [c], kept, places)
  {
    var all := comments + [c];
    forall k | 0 <= k < |comments|
      ensures IsFirst(all, k) <==> IsFirst(comments, k)
    {
      assert forall j :: 0 <= j <= k ==> all[j] == comments[j];
    }
  }

  lemma FirstsNext(comments: seq<Comment>)
    requires |comments| > 0
    ensures var n := |comments| - 1;
            Firsts(comments) ==
            if IsFirst(comments, n) then Firsts(comments[..n]) + [comments[n]] else Firsts(comments[..n])
  {
    hide HasId;
    var n := |comments| - 1;
    SeenBefore(comments[..n], comments[n].id);
    assert forall j :: 0 <= j < n ==> comments[..n][j] == comments[j];
  }

  /** Kept is exactly each comment that no earlier one shares its identifier with. */
  lemma {:induction false} FirstsAreFirst(comments: seq<Comment>) returns (places: seq<nat>)
    ensures KeptAt(comments, Firsts(comments), places)
    decreases |comments|
  {
    if |comments| == 0 {
      places := [];
    } else {
      hide KeptAt, Firsts, IsFirst;
      var n := |comments| - 1;
      var front := comments[..n];
      places := FirstsAreFirst(front);
      FirstsNext(comments);
      KeptMore(front, Firsts(front), places, comments[n]);
      assert comments == front + [comments[n]];
      if IsFirst(comments, n) {
        places := places + [n];
      }
    }
  }

  lemma SeenBefore(comments: seq<Comment>, id: string)
    ensures HasId(Firsts(comments), id) <==> exists j :: 0 <= j < |comments| && comments[j].id == id
  {
    hide Firsts;
    FirstsKeepsIds(comments);
    if j :| 0 <= j < |comments| && comments[j].id == id {
      assert comments[j] in comments;
    }
  }

  /** The k-th answer names this total, and none after it names any. */
  predicate NamesLast(answers: seq<Answer>, n: nat, k: nat)
    requires k < |answers|
  {
    answers[k].total == Some(n) && forall j :: k < j < |answers| ==> answers[j].total == None
  }

  /** The total is that of the last answer that names one. */
  lemma {:induction false} TotalIsLast(answers: seq<Answer>, n: nat)
    ensures LastTotal(answers) == None <==> forall k :: 0 <= k < |answers| ==> answers[k].total == None
    ensures LastTotal(answers) == Some(n) <==> exists k :: 0 <= k < |answers| && NamesLast(answers, n, k)
    decreases |answers|
  {
    if |answers| == 0 {
    } else {
      var m := |answers| - 1;
      var front := answers[..m];
      TotalIsLast(front, n);
      assert forall k :: 0 <= k < m ==> front[k] == answers[k];
      assert NamesLast(answers, n, m) <==> answers[m].total == Some(n);
      forall k | 0 <= k < m
        ensures NamesLast(answers, n, k) <==> NamesLast(front, n, k) && answers[m].total == None
      {
      }
    }
  }

  /** The answer names a next page, and nothing says to stop. */
  predicate LeadsOn(answer: Answer, page: nat) {
    answer.usable && !answer.truncated && answer.nextPage.Some? && page < answer.nextPage.value
  }

  function Cursor(answers: seq<Answer>, cursor: Option<string>, k: nat): Option<string>
    requires k <= |answers|
  {
    if k == 0 then cursor else answers[k - 1].nextCursor
  }

  /** These are the answers to a walk that asks for these pages. */
  predicate Walks(service: (nat, Option<string>) -> Answer, page: nat, cursor: Option<string>,
                  answers: seq<Answer>, pages: seq<nat>)
  {
    && |pages| == |answers|
    && (|pages| > 0 ==> pages[0] == page)
    && (forall k :: 0 <= k < |answers| ==> answers[k] == service(pages[k], Cursor(answers, cursor, k)))
    && (forall k :: 0 <= k < |answers| - 1 ==>
          LeadsOn(answers[k], pages[k]) && pages[k + 1] == answers[k].nextPage.value)
  }

  lemma WalksOn(service: (nat, Option<string>) -> Answer, page: nat, cursor: Option<string>,
                answers: seq<Answer>, pages: seq<nat>)
    requires var answer := service(page, cursor);
             LeadsOn(answer, page) && Walks(service, answer.nextPage.value, answer.nextCursor, answers, pages)
    ensures Walks(service, page, cursor, [service(page, cursor)] + answers, [page] + pages)
  {
    var all, more := [service(page, cursor)] + answers, [page] + pages;
    forall k | 0 <= k < |all|
      ensures all[k] == service(more[k], Cursor(all, cursor, k))
    {
      if k > 0 {
        assert all[k] == answers[k - 1] && more[k] == pages[k - 1];
        assert Cursor(all, cursor, k) == Cursor(answers, service(page, cursor).nextCursor, k - 1);
      }
    }
    forall k | 0 <= k < |all| - 1
      ensures LeadsOn(all[k], more[k]) && more[k + 1] == all[k].nextPage.value
    {
      assert more[k + 1] == pages[k];
      if k > 0 {
        assert all[k] == answers[k - 1] && more[k] == pages[k - 1];
      }
    }
  }

  /** The walk asks for the page and cursor its last answer named, and ends only at an answer
      that does not lead on, or when the budget is spent. */
  lemma {:induction false} WalkFollows(service: (nat, Option<string>) -> Answer, page: nat, cursor: Option<string>,
                                       budget: nat)
    ensures var answers, pages := Answers(service, page, cursor, budget), Pages(service, page, cursor, budget);
            && Walks(service, page, cursor, answers, pages)
            && (budget > 0 ==> |answers| > 0)
            && (0 < |answers| < budget ==> !LeadsOn(answers[|answers| - 1], pages[|answers| - 1]))
    decreases budget
  {
    if budget == 0 {
    } else {
      var answer := service(page, cursor);
      var answers, pages := Answers(service, page, cursor, budget), Pages(service, page, cursor, budget);
      if GoesOn(answer, page) {
        WalkFollows(service, answer.nextPage.value, answer.nextCursor, budget - 1);
        var rest := Answers(service, answer.nextPage.value, answer.nextCursor, budget - 1);
        var others := Pages(service, answer.nextPage.value, answer.nextCursor, budget - 1);
        assert answers == [answer] + rest && pages == [page] + others;
        WalksOn(service, page, cursor, rest, others);
      } else {
        assert answers == [answer] && pages == [page];
      }
    }
  }

  lemma OneMoreAnswer(answers: seq<Answer>, answer: Answer)
    ensures AllComments(answers + [answer]) == AllComments(answers) + answer.comments
    ensures LastTotal(answers + [answer]) == if answer.total.Some? then answer.total else LastTotal(answers)
    ensures Usable(answers + [answer]) == if answer.usable then answers + [answer] else answers
  {
    assert (answers + [answer])[..|answers|] == answers;
  }

  /** The usable part of a walk. */
  ghost function Usable(answers: seq<Answer>): seq<Answer> {
    if |answers| > 0 && !answers[|answers| - 1].usable then answers[..|answers| - 1] else answers
  }

  /** What the merge returns for the answers of its walk: the first comment of each
      identifier over the usable ones, complete only if the last answer says so; an error
      if nothing at all was usable, or the walk went on but could not. */
  ghost predicate Settled(answers: seq<Answer>, r: Result<Merged>)
    requires |answers| > 0
  {
    var last := answers[|answers| - 1];
    && (r.Ok? ==>
          && r.value.comments == Firsts(AllComments(Usable(answers)))
          && r.value.total == LastTotal(Usable(answers)))
    && (r.Ok? && r.value.complete <==> last.usable && !last.truncated && last.nextPage.None? && last.allPages)
    && (r.Err? <==>
          || (!last.usable && AllComments(Usable(answers)) == [])
          || (last.usable && !last.truncated && last.nextPage.Some?))
  }

  lemma StopsUnusable(before: seq<Answer>, answer: Answer, merged: Merged, error: string)
    requires !answer.usable && !merged.complete
    requires merged.comments == Firsts(AllComments(before)) && merged.total == LastTotal(before)
    ensures Settled(before + [answer], if merged.comments != [] then Ok(merged) else Err(error))
  {
    hide AllComments, LastTotal, Firsts;
    OneMoreAnswer(before, answer);
    NothingMerged(AllComments(before));
  }

  lemma StopsUsable(before: seq<Answer>, answer: Answer, merged: Merged)
    requires answer.usable && (answer.truncated || answer.nextPage.None?)
    requires merged.comments == Firsts(AllComments(before + [answer]))
    requires merged.total == LastTotal(before + [answer])
    requires merged.complete <==> !answer.truncated && answer.allPages
    ensures Settled(before + [answer], Ok(merged))
  {
    hide AllComments, LastTotal, Firsts;
    OneMoreAnswer(before, answer);
  }

  /** The next page goes back, or there have been too many. */
  lemma StopsHalfway(before: seq<Answer>, answer: Answer, error: string)
    requires answer.usable && !answer.truncated && answer.nextPage.Some?
    ensures Settled(before + [answer], Err(error))
  {
  }

  lemma LastAnswer(service: (nat, Option<string>) -> Answer, page: nat, cursor: Option<string>, budget: nat)
    requires budget > 0
    ensures var answer := service(page, cursor);
            Answers(service, page, cursor, budget) ==
            [answer] + if GoesOn(answer, page)
                       then Answers(service, answer.nextPage.value, answer.nextCursor, budget - 1)
                       else []
  {
  }

  lemma NoMoreAnswers(service: (nat, Option<string>) -> Answer, page: nat, cursor: Option<string>)
    ensures Answers(service, page, cursor, 0) == []
  {
  }

  lemma StartOfMerge()
    ensures [] == Firsts(AllComments([])) && LastTotal([]) == None
    ensures (forall id :: !HasId([], id)) && MAX_PAGES == 10_000
  {
  }

  /** What one answer adds, and the outcome if the merge stops with it. */
  method TakeAnswer(comments: seq<Comment>, seen: set<string>, total: Option<nat>, answer: Answer, page: nat,
                    ghost before: seq<Answer>)
    returns (settled: Option<Result<Merged>>, merged: seq<Comment>, ids: set<string>, last: Option<nat>)
    requires comments == Firsts(AllComments(before)) && total == LastTotal(before)
    requires forall id :: id in seen <==> HasId(comments, id)
    ensures settled.None? <==> GoesOn(answer, page)
    ensures settled.Some? ==> Settled(before + [answer], settled.value) && settled.value != Err("comment cursor")
    ensures settled.None? ==>
              && merged == Firsts(AllComments(before + [answer]))
              && last == LastTotal(before + [answer])
              && (forall id :: id in ids <==> HasId(merged, id))
  {
    hide *;
    merged, ids, last := comments, seen, total;
    Decides(answer, page);
    OneMoreAnswer(before, answer);
    if !answer.usable {
      StopsUnusable(before, answer, Merged(comments, total, false), "unusable");
      settled := Some(if comments != [] then Ok(Merged(comments, total, false)) else Err("unusable"));
      return;
    }
    if answer.total.Some? {
      last := answer.total;
    }
    merged, ids := MergePage(comments, seen, answer.comments, AllComments(before));
    if answer.truncated {
      StopsUsable(before, answer, Merged(merged, last, false));
      settled := Some(Ok(Merged(merged, last, false)));
    } else if answer.nextPage.None? {
      StopsUsable(before, answer, Merged(merged, last, answer.allPages));
      settled := Some(Ok(Merged(merged, last, answer.allPages)));
    } else if answer.nextPage.value <= page {
      StopsHalfway(before, answer, "comment cursor does not advance");
      settled := Some(Err("comment cursor does not advance"));
    } else {
      settled := None;
    }
  }

  /** The merge asks for at most ten thousand pages and settles their answers. The guard
      against a cursor that comes back fires only after ten thousand of them. */
  method FetchAllComments(service: (nat, Option<string>) -> Answer) returns (r: Result<Merged>)
    ensures |Answers(service, 1, None, 10_000)| > 0
    ensures Settled(Answers(service, 1, None, 10_000), r)
    ensures r == Err("comment cursor") ==> |Answers(service, 1, None, 10_000)| == 10_000
  {
    hide *;
    var comments: seq<Comment>, seen: set<string> := [], {};
    var requested: set<nat> := {};
    var page: nat := 1;
    var cursor: Option<string> := None;
    var total: Option<nat> := None;
    ghost var whole := Answers(service, page, cursor, MAX_PAGES);
    ghost var done: seq<Answer> := [];
    StartOfMerge();
    while true
      invariant |done| == |requested| <= MAX_PAGES
      invariant whole == done + Answers(service, page, cursor, MAX_PAGES - |done|)
      invariant forall p :: p in requested ==> p < page
      invariant |done| > 0 ==>
                  && var answer := done[|done| - 1];
                  && answer.usable && !answer.truncated && answer.nextPage.Some?
      invariant comments == Firsts(AllComments(done))
      invariant total == LastTotal(done)
      invariant forall id :: id in seen <==> HasId(comments, id)
      decreases MAX_PAGES - |done|
    {
      if page in requested || |requested| >= MAX_PAGES {
        NoMoreAnswers(service, page, cursor);
        assert whole == done[..|done| - 1] + [done[|done| - 1]];
        StopsHalfway(done[..|done| - 1], done[|done| - 1], "comment cursor");
        return Err("comment cursor");
      }
      LastAnswer(service, page, cursor, MAX_PAGES - |done|);
      requested := requested + {page};
      var answer := service(page, cursor);
      Decides(answer, page);
      var settled: Option<Result<Merged>>;
      settled, comments, seen, total := TakeAnswer(comments, seen, total, answer, page, done);
      done := done + [answer];
      if settled.Some? {
        assert whole == done;
        return settled.value;
      }
      page, cursor := answer.nextPage.value, answer.nextCursor;
    }
  }

  lemma Decides(answer: Answer, page: nat)
    ensures GoesOn(answer, page) <==>
            answer.usable && !answer.truncated && answer.nextPage.Some? && answer.nextPage.value > page
  {
  }

  lemma NothingMerged(comments: seq<Comment>)
    ensures Firsts(comments) == [] <==> comments == []
  {
    FirstsKeepsIds(comments);
    if comments != [] {
      assert HasId(comments, comments[0].id);
    }
  }
}
