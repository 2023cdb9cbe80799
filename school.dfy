/** The course list of the school tab (app/components/SchoolTab.tsx): each
    course fetched from the catalogue gets a duration derived from its level. */
module School {

  import opened Common

  datatype Course = Course(id: Id, title: string, description: string, level: string, price: int, image: Option<string>, duration: string)

  predicate NamedLevel(level: string) {
    level == "Beginner" || level == "Intermediate" || level == "Advanced"
  }

  /** The nested ternary on `course.level`. */
  function Duration(level: string): (d: string)
    ensures d in {"4 weeks", "6 weeks", "8 weeks", "12 weeks"}
    ensures d == "12 weeks" <==> !NamedLevel(level)
  {
    if level == "Beginner" then "4 weeks"
    else if level == "Intermediate" then "6 weeks"
    else if level == "Advanced" then "8 weeks"
    else "12 weeks"
  }

  lemma DurationByLevel()
    ensures Duration("Beginner") == "4 weeks"
    ensures Duration("Intermediate") == "6 weeks"
    ensures Duration("Advanced") == "8 weeks"
    ensures forall level :: !NamedLevel(level) ==> Duration(level) == "12 weeks"
  {
  }

  /** `coursesData.map(course => ({ ...course, duration: … }))`. */
  function WithDurations(courses: seq<Course>): (r: seq<Course>)
    ensures |r| == |courses|
    ensures forall i :: 0 <= i < |courses| ==> r[i] == courses[i].(duration := Duration(courses[i].level))
  {
    if courses == [] then []
    else [courses[0].(duration := Duration(courses[0].level))] + WithDurations(courses[1..])
  }

  /** Deriving the durations again changes nothing. */
  lemma {:induction false} WithDurationsIdempotent(courses: seq<Course>)
    ensures WithDurations(WithDurations(courses)) == WithDurations(courses)
  {
    var once := WithDurations(courses);
    var twice := WithDurations(once);
    assert |twice| == |once|;
    forall i | 0 <= i < |once| ensures twice[i] == once[i] {
      assert once[i].level == courses[i].level;
    }
  }
}
