/**
 * The private lesson edit page: a draft lesson with a generated id, the Add
 * button that appends the draft to the list (disabled while the draft's
 * title or price is empty), and deletion by id.  The random number behind a
 * generated id is a parameter, within the range the generator yields.
 */
module PrivateLessons {
  import opened Strings
  import opened Seqs

  datatype Lesson = Lesson(id: string, lessonTitle: string, lessonPrice: string)

  /** The least and greatest values `Math.floor(10000000 + Math.random() * 90000000)` can take. */
  const MinId := 10000000
  const MaxId := 99999999

  /** An id as the page generates them: eight decimal digits, the first not 0. */
  predicate IsLessonId(id: string)
  {
    |id| == 8 && (forall i :: 0 <= i < 8 ==> IsDigit(id[i])) && id[0] != '0'
  }

  /** A generated id, from the random draw `n`. */
  function NewId(n: nat): (id: string)
    requires MinId <= n <= MaxId
    ensures IsLessonId(id)
    ensures DecimalValue(id) == n
  {
    assert Pow10(7) == MinId && Pow10(8) == MaxId + 1;
    NatToStringLength(n, 8);
    NatToStringRoundTrip(n);
    NatToString(n)
  }

  /** A fresh draft: a new id, an empty title and an empty price. */
  function NewDraft(n: nat): (d: Lesson)
    requires MinId <= n <= MaxId
    ensures IsLessonId(d.id) && d.lessonTitle == "" && d.lessonPrice == ""
  {
    Lesson(NewId(n), "", "")
  }

  /** The Add button is enabled. */
  predicate CanAdd(draft: Lesson)
  {
    draft.lessonTitle != "" && draft.lessonPrice != ""
  }

  /** `lessons.filter(lesson => lesson.id !== id)`. */
  function WithoutId(lessons: seq<Lesson>, id: string): (r: seq<Lesson>)
    ensures IsSubsequence(r, lessons)
    ensures forall l :: l in r <==> l in lessons && l.id != id
    ensures forall l :: multiset(r)[l] == if l.id != id then multiset(lessons)[l] else 0
  {
    Filter(lessons, (l: Lesson) => l.id != id)
  }

  /**
   * Deleting is idempotent, and deleting an id no lesson has changes
   * nothing.
   */
  lemma WithoutIdIdempotent(lessons: seq<Lesson>, id: string)
    ensures WithoutId(WithoutId(lessons, id), id) == WithoutId(lessons, id)
    ensures (forall i :: 0 <= i < |lessons| ==> lessons[i].id != id) ==> WithoutId(lessons, id) == lessons
  {
    var once := WithoutId(lessons, id);
    FilterKeepsAll(once, (l: Lesson) => l.id != id);
    if forall i :: 0 <= i < |lessons| ==> lessons[i].id != id {
      FilterKeepsAll(lessons, (l: Lesson) => l.id != id);
    }
  }

  class LessonsPage {
    var lessons: seq<Lesson>
    var myLesson: Lesson

    /** Every listed lesson was added through an enabled Add button, and every id is generated. */
    predicate Valid()
      reads this
    {
      IsLessonId(myLesson.id) &&
      forall i :: 0 <= i < |lessons| ==> CanAdd(lessons[i]) && IsLessonId(lessons[i].id)
    }

    /** The page opens with no lessons and a fresh draft. */
    constructor (n: nat)
      requires MinId <= n <= MaxId
      ensures Valid()
      ensures lessons == [] && myLesson == NewDraft(n)
    {
      lessons := [];
      myLesson := NewDraft(n);
    }

    /** Typing a title changes the draft only. */
    method SetTitle(title: string)
      requires Valid()
      modifies this
      ensures Valid()
      ensures myLesson == old(myLesson).(lessonTitle := title)
      ensures lessons == old(lessons)
    {
      myLesson := myLesson.(lessonTitle := title);
    }

    /** Typing a price changes the draft only. */
    method SetPrice(price: string)
      requires Valid()
      modifies this
      ensures Valid()
      ensures myLesson == old(myLesson).(lessonPrice := price)
      ensures lessons == old(lessons)
    {
      myLesson := myLesson.(lessonPrice := price);
    }

    /**
     * `handleAddLesson`, reachable only while the button is enabled: the
     * draft joins the end of the list and a fresh draft replaces it.
     */
    method AddLesson(n: nat)
      requires Valid() && CanAdd(myLesson)
      requires MinId <= n <= MaxId
      modifies this
      ensures Valid()
      ensures lessons == old(lessons) + [old(myLesson)]
      ensures myLesson == NewDraft(n)
    {
      lessons := lessons + [myLesson];
      myLesson := NewDraft(n);
    }

    /** `handleDeleteLesson`: every lesson with that id goes; the others keep their order. */
    method DeleteLesson(id: string)
      requires Valid()
      modifies this
      ensures Valid()
      ensures lessons == WithoutId(old(lessons), id)
      ensures myLesson == old(myLesson)
    {
      lessons := WithoutId(lessons, id);
      assert forall i :: 0 <= i < |lessons| ==> lessons[i] in old(lessons);
    }
  }
}
