/**
 * The keyword recommendation view (frontend/src/components/KeywordRecommendations.tsx):
 * a fixed table from job titles to four keyword categories, a lookup of the
 * first title related to what the user typed, and a selection list the user
 * toggles, clears and copies.
 */
module KeywordPicker {

  import opened Text

  datatype KeywordCategory = KeywordCategory(category: string, keywords: seq<string>)

  /** `jobKeywords`, in declaration order (the order `Object.entries` yields). */
  const JobKeywords: seq<(string, seq<KeywordCategory>)> := [
    ("Python工程师", [
      KeywordCategory("后端框架", ["Django", "Flask", "FastAPI", "Tornado", "Sanic"]),
      KeywordCategory("数据库", ["PostgreSQL", "MySQL", "Redis", "MongoDB", "Elasticsearch"]),
      KeywordCategory("工具", ["Docker", "Kubernetes", "Celery", "Gunicorn", "Nginx"]),
      KeywordCategory("其他", ["REST API", "微服务", "单元测试", "CI/CD", "Git"])]),
    ("前端工程师", [
      KeywordCategory("框架", ["React", "Vue.js", "Angular", "Next.js", "Nuxt.js"]),
      KeywordCategory("语言", ["TypeScript", "JavaScript", "HTML5", "CSS3", "Sass"]),
      KeywordCategory("工具", ["Webpack", "Vite", "ESLint", "Prettier", "Git"]),
      KeywordCategory("其他", ["响应式设计", "性能优化", "跨浏览器兼容", "SEO", "PWA"])]),
    ("全栈工程师", [
      KeywordCategory("前端", ["React", "Vue.js", "TypeScript", "Tailwind CSS", "Next.js"]),
      KeywordCategory("后端", ["Node.js", "Python", "Django", "FastAPI", "Express"]),
      KeywordCategory("数据库", ["PostgreSQL", "MongoDB", "Redis", "GraphQL", "Prisma"]),
      KeywordCategory("其他", ["Docker", "Kubernetes", "AWS", "CI/CD", "敏捷开发"])]),
    ("产品经理", [
      KeywordCategory("产品设计", ["用户研究", "原型设计", "Figma", "Sketch", "Axure"]),
      KeywordCategory("数据分析", ["SQL", "Excel", "Tableau", "数据分析", "A/B测试"]),
      KeywordCategory("项目管理", ["Scrum", "Jira", "需求文档", "竞品分析", "用户故事"]),
      KeywordCategory("其他", ["跨部门协作", "演讲能力", "PPT制作", "市场调研", "商业化"])]),
    ("UI/UX设计师", [
      KeywordCategory("设计工具", ["Figma", "Sketch", "Adobe XD", "Photoshop", "Illustrator"]),
      KeywordCategory("设计能力", ["用户研究", "交互设计", "视觉设计", "设计系统", "原型制作"]),
      KeywordCategory("前端", ["HTML", "CSS", "响应式设计", "设计交付", "Design Tokens"]),
      KeywordCategory("其他", ["用户测试", "可用性分析", "信息架构", "动效设计", "品牌设计"])])
  ]

  /** Every job title has four categories of five keywords each. */
  lemma TableShape()
    ensures |JobKeywords| == 5
    ensures forall e :: e in JobKeywords ==> |e.1| == 4 && forall c :: c in e.1 ==> |c.keywords| == 5
  {
  }

  /** A table title is related to what was typed when either contains the other. */
  predicate Related(title: string, key: string)
  {
    Contains(title, key) || Contains(key, title)
  }

  /** Table entry `i` is the first one related to `title`. */
  predicate FirstRelated(title: string, i: nat)
  {
    i < |JobKeywords| && Related(title, JobKeywords[i].0)
    && forall j :: 0 <= j < i ==> !Related(title, JobKeywords[j].0)
  }

  /** The categories of the first entry from `i` on related to `title`, or none. */
  function LookupFrom(title: string, i: nat): (r: seq<KeywordCategory>)
    ensures r != [] ==> exists j :: i <= j < |JobKeywords| && Related(title, JobKeywords[j].0) && r == JobKeywords[j].1
    decreases |JobKeywords| - i
  {
    if i >= |JobKeywords| then []
    else if Related(title, JobKeywords[i].0) then JobKeywords[i].1
    else LookupFrom(title, i + 1)
  }

  /** The recommendations for a typed title. */
  function Lookup(title: string): (r: seq<KeywordCategory>)
    ensures r != [] ==> exists j :: 0 <= j < |JobKeywords| && Related(title, JobKeywords[j].0) && r == JobKeywords[j].1
  {
    LookupFrom(title, 0)
  }

  /** Entries unrelated to `title` are passed over. */
  lemma {:induction false} LookupFromSkip(title: string, k: nat, i: nat)
    requires k <= i <= |JobKeywords|
    requires forall j :: k <= j < i ==> !Related(title, JobKeywords[j].0)
    ensures LookupFrom(title, k) == LookupFrom(title, i)
    decreases i - k
  {
    if k < i {
      LookupFromSkip(title, k + 1, i);
    }
  }

  lemma {:induction false} LookupFromFound(title: string, k: nat, j: nat)
    requires k <= j < |JobKeywords| && Related(title, JobKeywords[j].0)
    ensures LookupFrom(title, k) != []
    decreases j - k
  {
    if !Related(title, JobKeywords[k].0) {
      LookupFromFound(title, k + 1, j);
    } else {
      TableShape();
      assert JobKeywords[k] in JobKeywords;
    }
  }

  /**
   * The lookup gives the categories of the first related entry in table order,
   * and nothing exactly when no entry is related.
   */
  lemma LookupIsFirstMatch(title: string)
    ensures forall i: nat :: FirstRelated(title, i) ==> Lookup(title) == JobKeywords[i].1
    ensures Lookup(title) == [] <==> forall j :: 0 <= j < |JobKeywords| ==> !Related(title, JobKeywords[j].0)
  {
    forall i: nat | FirstRelated(title, i)
      ensures Lookup(title) == JobKeywords[i].1
    {
      LookupFromSkip(title, 0, i);
    }
    if forall j :: 0 <= j < |JobKeywords| ==> !Related(title, JobKeywords[j].0) {
      LookupFromSkip(title, 0, |JobKeywords|);
    } else {
      var j :| 0 <= j < |JobKeywords| && Related(title, JobKeywords[j].0);
      LookupFromFound(title, 0, j);
    }
  }

  /** An empty title is contained in every key, so it gets the first entry's categories. */
  lemma EmptyTitleMatchesFirst()
    ensures Lookup("") == JobKeywords[0].1
  {
    ContainsEmpty(JobKeywords[0].0);
  }

  /** Filtering a keyword out of a selection that holds it once cuts it out at its position. */
  lemma {:induction false} RemoveAt(selected: seq<string>, keyword: string)
    requires Distinct(selected) && keyword in selected
    ensures exists i :: 0 <= i < |selected| && selected[i] == keyword
                        && Filter(selected, (k: string) => k != keyword) == selected[..i] + selected[i + 1..]
  {
    var p := (k: string) => k != keyword;
    var i :| 0 <= i < |selected| && selected[i] == keyword;
    var front, back := selected[..i], selected[i + 1..];
    assert selected == front + ([keyword] + back);
    FilterAppend(front, [keyword] + back, p);
    FilterAppend([keyword], back, p);
    assert Filter([keyword], p) == [];
    forall j | 0 <= j < |front|
      ensures p(front[j])
    {
      assert front[j] == selected[j];
    }
    forall j | 0 <= j < |back|
      ensures p(back[j])
    {
      assert back[j] == selected[i + 1 + j];
    }
    FilterAll(front, p);
    FilterAll(back, p);
  }

  /**
   * `toggleKeyword`'s new selection: a selected keyword is removed, the others
   * keeping their order; another keyword is appended.
   */
  function Toggled(selected: seq<string>, keyword: string): (r: seq<string>)
    ensures forall x :: x in r <==> (x in selected) != (x == keyword)
    ensures Distinct(selected) ==> Distinct(r)
    ensures keyword in selected ==> Subsequence(r, selected)
    ensures Distinct(selected) && keyword in selected ==>
      exists i :: 0 <= i < |selected| && selected[i] == keyword && r == selected[..i] + selected[i + 1..]
    ensures keyword !in selected ==> r == selected + [keyword]
  {
    if keyword in selected then
      if Distinct(selected) then
        RemoveAt(selected, keyword);
        Filter(selected, (k: string) => k != keyword)
      else Filter(selected, (k: string) => k != keyword)
    else
      var r := selected + [keyword];
      assert Distinct(selected) ==> Distinct(r) by {
        if Distinct(selected) {
          forall i, j | 0 <= i < j < |r|
            ensures r[i] != r[j]
          {
            if j == |selected| {
              assert r[i] in selected;
            }
          }
        }
      }
      r
  }

  /** Toggling a keyword that was not selected, twice, gives the selection back. */
  lemma {:induction false} ToggleTwiceAbsent(selected: seq<string>, keyword: string)
    requires keyword !in selected
    ensures Toggled(Toggled(selected, keyword), keyword) == selected
  {
    var p := (k: string) => k != keyword;
    FilterAppend(selected, [keyword], p);
    FilterAll(selected, p);
    assert Filter([keyword], p) == [];
  }

  /** Toggling a selected keyword twice takes it out, then puts it back at the end. */
  lemma ToggleTwiceMovesToEnd(selected: seq<string>, keyword: string)
    requires keyword in selected
    ensures var once := Toggled(selected, keyword);
      Toggled(once, keyword) == once + [keyword] && keyword !in once
  {
  }

  /**
   * Toggling a selected keyword twice keeps the same keywords, but moves that
   * one to the end: the selection comes back unchanged only when it was last.
   */
  lemma ToggleTwicePresent(selected: seq<string>, keyword: string)
    requires keyword in selected && Distinct(selected)
    ensures Toggled(Toggled(selected, keyword), keyword) == selected <==> selected[|selected| - 1] == keyword
  {
    var once := Toggled(selected, keyword);
    ToggleTwiceMovesToEnd(selected, keyword);
    var n := |selected| - 1;
    var i :| 0 <= i < |selected| && selected[i] == keyword && once == selected[..i] + selected[i + 1..];
    if i == n {
      assert selected == selected[..n] + [keyword];
    } else {
      assert selected[n] != keyword;
      assert (once + [keyword])[|once|] == keyword;
    }
  }

  /** The copied text: the selection joined by ", ", in selection order. */
  function CopyText(selected: seq<string>): (t: string)
    ensures selected == [] ==> t == []
    ensures forall k :: k in selected ==> Contains(t, k)
  {
    forall k | k in selected
      ensures Contains(Join(selected, ", "), k)
    {
      var i :| 0 <= i < |selected| && selected[i] == k;
      JoinContains(selected, ", ", i);
    }
    Join(selected, ", ")
  }

  /** Selecting one more keyword adds ", " and that keyword to the end of the copied text. */
  lemma CopyAfterSelect(selected: seq<string>, keyword: string)
    requires keyword !in selected
    ensures CopyText(Toggled(selected, keyword)) == if selected == [] then keyword else CopyText(selected) + ", " + keyword
  {
    if selected != [] {
      JoinSnoc(selected, keyword, ", ");
    }
  }

  /** The view's state. */
  class KeywordRecommendations {
    var jobTitle: string
    var selectedKeywords: seq<string>
    var recommendedKeywords: seq<KeywordCategory>

    /** The selection never holds a keyword twice. */
    ghost predicate Valid()
      reads this
    {
      Distinct(selectedKeywords)
    }

    constructor ()
      ensures Valid()
      ensures jobTitle == [] && selectedKeywords == [] && recommendedKeywords == []
    {
      jobTitle := [];
      selectedKeywords := [];
      recommendedKeywords := [];
    }

    /** `handleJobTitleChange`: the first related entry, searched in table order. */
    method HandleJobTitleChange(title: string)
      modifies this
      ensures jobTitle == title && recommendedKeywords == Lookup(title)
      ensures selectedKeywords == old(selectedKeywords)
    {
      jobTitle := title;
      var matched := false;
      var i := 0;
      while i < |JobKeywords|
        invariant 0 <= i <= |JobKeywords|
        invariant !matched ==> Lookup(title) == LookupFrom(title, i)
        invariant matched ==> recommendedKeywords == Lookup(title)
        invariant jobTitle == title && selectedKeywords == old(selectedKeywords)
        decreases |JobKeywords| - i, !matched
      {
        if Related(title, JobKeywords[i].0) {
          recommendedKeywords := JobKeywords[i].1;
          matched := true;
          break;
        }
        i := i + 1;
      }
      if !matched {
        recommendedKeywords := [];
      }
    }

    /** `toggleKeyword`. */
    method ToggleKeyword(keyword: string)
      requires Valid()
      modifies this
      ensures Valid()
      ensures selectedKeywords == Toggled(old(selectedKeywords), keyword)
      ensures jobTitle == old(jobTitle) && recommendedKeywords == old(recommendedKeywords)
    {
      if keyword in selectedKeywords {
        selectedKeywords := Filter(selectedKeywords, (k: string) => k != keyword);
      } else {
        selectedKeywords := selectedKeywords + [keyword];
      }
    }

    /** `clearSelected`: the selection is emptied and nothing else changes. */
    method ClearSelected()
      modifies this
      ensures Valid()
      ensures selectedKeywords == []
      ensures jobTitle == old(jobTitle) && recommendedKeywords == old(recommendedKeywords)
    {
      selectedKeywords := [];
    }
  }
}
