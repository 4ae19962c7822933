/**
 * The moderation page: an admin-only queue of pending courses, each approved
 * (its status set in place) or rejected (its document deleted).
 */
module Admin {
  import opened Wrappers
  import opened Auth
  import opened Store
  import opened Courses

  /** What the page renders: the loading line, nothing, or the queue. */
  datatype Screen = Loading | Blank | Queue(courses: seq<Doc<Course>>)

  /** How a run of the page's effect ended. */
  datatype EffectRun = Waiting | Redirected | Loaded | LoadFailed

  // ---------------------------------------------------------------------------
  // The decision, on the store
  // ---------------------------------------------------------------------------

  /**
   * The course store after a decision whose write went through: "approved"
   * sets the status of an existing course, any other outcome deletes the
   * course; no other course changes.
   */
  function Decide(courses: map<string, Course>, courseId: string, newStatus: string): (r: map<string, Course>)
    ensures newStatus == Approved ==> (courseId in r <==> courseId in courses)
    ensures newStatus == Approved && courseId in courses ==>
      r[courseId] == courses[courseId].(status := Approved)
    ensures newStatus != Approved ==> courseId !in r
    ensures forall k :: k != courseId ==> (k in r <==> k in courses)
    ensures forall k :: k != courseId && k in r ==> r[k] == courses[k]
  {
    if newStatus == Approved then
      if courseId in courses then courses[courseId := MarkApproved(courses[courseId])] else courses
    else
      courses - {courseId}
  }

  // ---------------------------------------------------------------------------
  // The decision, on the local queue (`prev.filter((c) => c.id !== courseId)`)
  // ---------------------------------------------------------------------------

  /** The queue without the entries for `courseId`: exactly the others are kept. */
  function Without(rs: seq<Doc<Course>>, courseId: string): (r: seq<Doc<Course>>)
    ensures forall d :: d in r <==> d in rs && d.id != courseId
    ensures |r| <= |rs|
  {
    if rs == [] then []
    else (if rs[0].id == courseId then [] else [rs[0]]) + Without(rs[1..], courseId)
  }

  /** Filtering keeps relative order: it distributes over concatenation. */
  lemma {:induction false} WithoutAppend(a: seq<Doc<Course>>, b: seq<Doc<Course>>, courseId: string)
    ensures Without(a + b, courseId) == Without(a, courseId) + Without(b, courseId)
  {
    if a == [] {
      assert a + b == b;
    } else {
      assert (a + b)[1..] == a[1..] + b;
      WithoutAppend(a[1..], b, courseId);
    }
  }

  /** Removing the same id twice removes nothing more. */
  lemma {:induction false} WithoutIdempotent(rs: seq<Doc<Course>>, courseId: string)
    ensures Without(Without(rs, courseId), courseId) == Without(rs, courseId)
  {
    if rs != [] {
      var head := if rs[0].id == courseId then [] else [rs[0]];
      WithoutIdempotent(rs[1..], courseId);
      WithoutAppend(head, Without(rs[1..], courseId), courseId);
      assert Without(head, courseId) == head by {
        assert head != [] ==> head[1..] == [];
      }
    }
  }

  /** A queue with no entry for the id is left as it is. */
  lemma {:induction false} WithoutAbsent(rs: seq<Doc<Course>>, courseId: string)
    requires forall i :: 0 <= i < |rs| ==> rs[i].id != courseId
    ensures Without(rs, courseId) == rs
  {
    if rs != [] {
      WithoutAbsent(rs[1..], courseId);
    }
  }

  /** A queue without repeated ids stays so. */
  lemma {:induction false} WithoutDistinct(rs: seq<Doc<Course>>, courseId: string)
    requires DistinctIds(rs)
    ensures DistinctIds(Without(rs, courseId))
  {
    if rs != [] {
      var tail := Without(rs[1..], courseId);
      WithoutDistinct(rs[1..], courseId);
      forall i | 0 <= i < |tail|
        ensures tail[i].id != rs[0].id
      {
        assert tail[i] in rs[1..];
      }
    }
  }

  /**
   * After a completed decision the queue still answers the pending query
   * against the store: deciding a listed course and filtering it from the
   * queue keep the two in step.
   */
  lemma DecisionKeepsQueue(rs: seq<Doc<Course>>, courses: map<string, Course>, courseId: string, newStatus: string)
    requires IsQueryResult(rs, courses, IsPending)
    ensures IsQueryResult(Without(rs, courseId), Decide(courses, courseId, newStatus), IsPending)
  {
    KeptEntriesLive(rs, courses, courseId, newStatus);
    PendingStillListed(rs, courses, courseId, newStatus);
    WithoutDistinct(rs, courseId);
  }

  /** Every entry left in the queue is still a pending course of the decided store. */
  lemma KeptEntriesLive(rs: seq<Doc<Course>>, courses: map<string, Course>, courseId: string, newStatus: string)
    requires EntriesLive(rs, courses, IsPending)
    ensures EntriesLive(Without(rs, courseId), Decide(courses, courseId, newStatus), IsPending)
  {
  }

  /** Every pending course of the decided store is still in the queue. */
  lemma PendingStillListed(rs: seq<Doc<Course>>, courses: map<string, Course>, courseId: string, newStatus: string)
    requires ListsAll(rs, courses, IsPending)
    ensures ListsAll(Without(rs, courseId), Decide(courses, courseId, newStatus), IsPending)
  {
  }

  // ---------------------------------------------------------------------------
  // The page
  // ---------------------------------------------------------------------------

  class AdminPage {
    var pendingCourses: seq<Doc<Course>>
    var isLoadingData: bool

    constructor ()
      ensures pendingCourses == [] && isLoadingData
    {
      pendingCourses := [];
      isLoadingData := true;
    }

    /**
     * The page's effect: nothing while authentication is loading; a redirect,
     * and no read, for anyone but an admin; otherwise the pending courses are
     * read. A rejected read leaves the page loading.
     */
    method OnAuthState(user: Option<User>, loading: bool, store: Collection<Course>, fault: bool) returns (run: EffectRun)
      modifies this
      ensures run == if loading then Waiting else if !IsAdmin(user) then Redirected else if fault then LoadFailed else Loaded
      ensures run == Loaded ==> !isLoadingData && IsQueryResult(pendingCourses, store.docs, IsPending)
      ensures run == LoadFailed ==> isLoadingData && pendingCourses == old(pendingCourses)
      ensures run == Waiting || run == Redirected ==> isLoadingData == old(isLoadingData) && pendingCourses == old(pendingCourses)
    {
      if loading {
        return Waiting;
      }
      if !IsAdmin(user) {
        return Redirected;
      }
      isLoadingData := true;
      var ok, courses := store.Query(IsPending, fault);
      if !ok {
        return LoadFailed;
      }
      pendingCourses := courses;
      isLoadingData := false;
      return Loaded;
    }

    /** The page's render: the queue is shown to an admin only, once both loads are over. */
    function View(loading: bool, user: Option<User>): (s: Screen)
      reads this
      ensures s.Queue? ==> IsAdmin(user) && !loading && !isLoadingData
      ensures !IsAdmin(user) ==> s == Loading || s == Blank
      ensures s.Queue? ==> s.courses == pendingCourses
      ensures loading || isLoadingData ==> s == Loading
      ensures !loading && !isLoadingData && IsAdmin(user) ==> s == Queue(pendingCourses)
    {
      if loading || isLoadingData then Loading
      else if !IsAdmin(user) then Blank
      else Queue(pendingCourses)
    }

    /**
     * Approves (status set in place) or rejects (document deleted) a course,
     * then drops it from the queue. The queue is filtered only after the
     * store's write went through: a rejected write skips the filter.
     */
    method HandleApproval(courseId: string, newStatus: string, store: Collection<Course>, fault: bool) returns (done: bool)
      modifies this, store
      ensures done == (!fault && (newStatus == Approved ==> courseId in old(store.docs)))
      ensures store.docs == if done then Decide(old(store.docs), courseId, newStatus) else old(store.docs)
      ensures pendingCourses == if done then Without(old(pendingCourses), courseId) else old(pendingCourses)
      ensures isLoadingData == old(isLoadingData)
    {
      if newStatus == Approved {
        done := store.Update(courseId, MarkApproved, fault);
      } else {
        done := store.Delete(courseId, fault);
      }
      if done {
        pendingCourses := Without(pendingCourses, courseId);
      }
    }
  }
}
