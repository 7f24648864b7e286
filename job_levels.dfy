/** The fixed job-level table: title to base annual allocation. The sign-up form and the
    profile page each carry their own copy of it. */
module JobLevels {
  import opened Records

  datatype JobLevel = JobLevel(title: string, days: nat)

  /** The table used when a profile is created at sign-up. */
  const SignUpLevels: seq<JobLevel> := [
    JobLevel("Managing Director", 30),
    JobLevel("Director (5+ years)", 30),
    JobLevel("Director (< 5 years)", 25),
    JobLevel("Vice President", 25),
    JobLevel("Assistant Vice President", 20),
    JobLevel("Associate", 20)
  ]

  /** The table used when the job level is changed on the profile page. */
  const ProfileLevels: seq<JobLevel> := [
    JobLevel("Managing Director", 30),
    JobLevel("Director (5+ years)", 30),
    JobLevel("Director (< 5 years)", 25),
    JobLevel("Vice President", 25),
    JobLevel("Assistant Vice President", 20),
    JobLevel("Associate", 20)
  ]

  /** `jobLevels.find(level => level.title === title)`: the first row with that title. */
  function Find(table: seq<JobLevel>, title: string): (r: Option<JobLevel>)
    ensures r.None? <==> forall i :: 0 <= i < |table| ==> table[i].title != title
    ensures r.Some? ==> exists i :: 0 <= i < |table| && table[i] == r.value && r.value.title == title
                                    && forall j :: 0 <= j < i ==> table[j].title != title
  {
    if table == [] then None
    else if table[0].title == title then Some(table[0])
    else
      var r := Find(table[1..], title);
      assert r.Some? ==> exists i :: 1 <= i < |table| && table[i] == r.value && r.value.title == title
                                     && forall j :: 0 <= j < i ==> table[j].title != title by {
        if r.Some? {
          var i :| 0 <= i < |table[1..]| && table[1..][i] == r.value && r.value.title == title
                   && forall j :: 0 <= j < i ==> table[1..][j].title != title;
          assert table[i + 1] == r.value;
          forall j | 0 <= j < i + 1 ensures table[j].title != title {
            if j > 0 { assert table[j] == table[1..][j - 1]; }
          }
        }
      }
      r
  }

  /** Titles of a table are pairwise distinct. */
  ghost predicate DistinctTitles(table: seq<JobLevel>)
  {
    forall i, j :: 0 <= i < j < |table| ==> table[i].title != table[j].title
  }

  /** In a table with distinct titles, looking up a row's title finds that row. */
  lemma {:induction false} FindRow(table: seq<JobLevel>, k: nat)
    requires DistinctTitles(table) && k < |table|
    ensures Find(table, table[k].title) == Some(table[k])
  {
    if k > 0 {
      assert table[0].title != table[k].title;
      assert DistinctTitles(table[1..]) by {
        forall i, j | 0 <= i < j < |table[1..]| ensures table[1..][i].title != table[1..][j].title {
          assert table[1..][i] == table[i + 1] && table[1..][j] == table[j + 1];
        }
      }
      FindRow(table[1..], k - 1);
      assert table[1..][k - 1] == table[k];
    }
  }

  /** The six titles of the sign-up table are pairwise distinct (they even differ in
      length). */
  lemma SignUpTitlesDistinct()
    ensures DistinctTitles(SignUpLevels)
  {
    var lengths := [17, 19, 20, 14, 24, 9];
    forall i | 0 <= i < 6 ensures |SignUpLevels[i].title| == lengths[i] {
    }
  }

  /** The sign-up table lists six distinct titles, each worth 20, 25 or 30 days, and every
      title in it resolves to exactly its own row. */
  lemma SignUpTableShape()
    ensures |SignUpLevels| == 6
    ensures DistinctTitles(SignUpLevels)
    ensures forall i :: 0 <= i < |SignUpLevels| ==>
              SignUpLevels[i].days == 20 || SignUpLevels[i].days == 25 || SignUpLevels[i].days == 30
    ensures forall i :: 0 <= i < |SignUpLevels| ==> Find(SignUpLevels, SignUpLevels[i].title) == Some(SignUpLevels[i])
  {
    SignUpTitlesDistinct();
    forall i | 0 <= i < |SignUpLevels| ensures Find(SignUpLevels, SignUpLevels[i].title) == Some(SignUpLevels[i]) {
      FindRow(SignUpLevels, i);
    }
  }

  /** The profile page's table is the sign-up table, so both pages agree on every title. */
  lemma TablesAgree(title: string)
    ensures ProfileLevels == SignUpLevels
    ensures Find(ProfileLevels, title) == Find(SignUpLevels, title)
  {
  }

  /** Examples: an Associate starts with 20 days, a Managing Director with 30; an unlisted
      title (including the empty one) is not found. */
  lemma FindExamples()
    ensures Find(SignUpLevels, "Associate") == Some(JobLevel("Associate", 20))
    ensures Find(ProfileLevels, "Managing Director") == Some(JobLevel("Managing Director", 30))
    ensures Find(SignUpLevels, "") == None
  {
    SignUpTableShape();
    assert SignUpLevels[5].title == "Associate";
    assert SignUpLevels[0].title == "Managing Director";
  }
}
