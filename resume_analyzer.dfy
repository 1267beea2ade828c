/**
 * The rule-based résumé analyser (`ResumeOptimizer` in backend/src/services/resume.rs):
 * fixed-table keyword filters, a clamped match percentage, a capped keyword
 * coverage, the optimisation advice rules, the four score categories and the
 * cover-letter template.
 */
module ResumeAnalyzer {

  import opened Basics
  import opened Text
  import opened Models

  // ---------------------------------------------------------------- keyword tables

  /** The vocabulary `extract_keywords_from_text` looks for, in its declared order. */
  const TechTerms: seq<string> := [
    "Python", "JavaScript", "Rust", "Go", "Java", "TypeScript",
    "React", "Vue", "Node", "Docker", "Kubernetes", "AWS",
    "Git", "Linux", "SQL", "MongoDB", "Redis", "PostgreSQL",
    "团队", "管理", "领导", "沟通", "分析", "设计"
  ]

  /** No term is listed twice. */
  lemma TechTermsDistinct()
    ensures Distinct(TechTerms)
  {
  }

  /**
   * The table terms that occur (case-sensitively) in `text`, in table order.
   * A term inside a longer one counts too: "JavaScript" also yields "Java".
   */
  function ExtractKeywordsFromText(text: string): (terms: seq<string>)
    ensures forall t :: t in terms <==> t in TechTerms && Contains(text, t)
    ensures Subsequence(terms, TechTerms)
    ensures Distinct(terms)
  {
    TechTermsDistinct();
    Filter(TechTerms, t => Contains(text, t))
  }

  /** The weighted vocabulary of `extract_keywords`, in its declared order. */
  const KeywordTable: seq<Keyword> := [
    Keyword("Python", 90, "编程语言"),
    Keyword("JavaScript", 85, "编程语言"),
    Keyword("Rust", 80, "编程语言"),
    Keyword("团队协作", 75, "软技能"),
    Keyword("项目管理", 70, "管理能力"),
    Keyword("数据分析", 85, "技能"),
    Keyword("沟通能力", 65, "软技能"),
    Keyword("问题解决", 70, "软技能"),
    Keyword("领导力", 75, "管理能力"),
    Keyword("创新", 60, "软技能")
  ]

  /**
   * `extract_keywords`: the table entries whose word occurs in `text`, in table
   * order, each copied with its category and importance unchanged.
   */
  function ExtractKeywords(text: string): (keywords: seq<Keyword>)
    ensures forall k :: k in keywords <==> k in KeywordTable && Contains(text, k.word)
    ensures Subsequence(keywords, KeywordTable)
    ensures forall k :: k in keywords ==> 60 <= k.importance <= 90
  {
    Filter(KeywordTable, (k: Keyword) => Contains(text, k.word))
  }

  // ---------------------------------------------------------------- scores

  /** The lower-cased job description split at whitespace (repeated words kept). */
  function JdWords(jd: string): seq<string>
  {
    SplitWhitespace(ToLower(jd))
  }

  /** How many of the JD words occur inside the lower-cased résumé. */
  function MatchedWords(resume: string, jd: string): (n: nat)
    ensures n <= |JdWords(jd)|
  {
    var lowered := ToLower(resume);
    Count(JdWords(jd), w => Contains(lowered, w))
  }

  /**
   * `(part as f64 / whole as f64 * 100.0) as u8` for `part <= whole`, computed
   * exactly as the truncated integer percentage.
   */
  function Percent(part: nat, whole: nat): (p: nat)
    requires 0 < whole && part <= whole
    ensures p <= 100
    ensures part == whole ==> p == 100
    ensures part == 0 ==> p == 0
  {
    PercentBound(part, whole);
    part * 100 / whole
  }

  lemma PercentBound(part: nat, whole: nat)
    requires 0 < whole && part <= whole
    ensures 0 <= part * 100 / whole <= 100
    ensures part == whole ==> part * 100 / whole == 100
    ensures part == 0 ==> part * 100 / whole == 0
  {
    assert part * 100 <= whole * 100;
    assert whole * 100 / whole == 100;
  }

  /** `x.min(hi).max(lo)` for `lo <= hi`. */
  function Clamp(x: int, lo: int, hi: int): (r: int)
    requires lo <= hi
    ensures lo <= r <= hi
    ensures lo <= x <= hi ==> r == x
  {
    if x > hi then hi else if x < lo then lo else x
  }

  /**
   * `calculate_match_score`: 50 when the JD has no words; otherwise the truncated
   * percentage of JD words found in the résumé, clamped to [30, 95].
   */
  function CalculateMatchScore(resume: string, jd: string): (score: U8)
    ensures JdWords(jd) == [] ==> score == 50
    ensures JdWords(jd) != [] ==> 30 <= score <= 95
  {
    var words := JdWords(jd);
    if words == [] then 50
    else Clamp(Percent(MatchedWords(resume, jd), |words|), 30, 95)
  }

  /** A JD that is empty or all whitespace gives the neutral score 50, and only such a JD has no words. */
  lemma MatchScoreNeutral(resume: string, jd: string)
    ensures JdWords(jd) == [] <==> AllWhitespace(jd)
    ensures AllWhitespace(jd) ==> CalculateMatchScore(resume, jd) == 50
  {
    SplitWhitespaceEmpty(ToLower(jd));
    ToLowerAllWhitespace(jd);
  }

  /** With at least one JD word the score is the truncated percentage whenever that lies in [30, 95]. */
  lemma MatchScoreIsPercentage(resume: string, jd: string)
    requires !AllWhitespace(jd)
    ensures 30 <= CalculateMatchScore(resume, jd) <= 95
    ensures var p := Percent(MatchedWords(resume, jd), |JdWords(jd)|);
      && (30 <= p <= 95 ==> CalculateMatchScore(resume, jd) == p)
      && (p < 30 ==> CalculateMatchScore(resume, jd) == 30)
      && (p > 95 ==> CalculateMatchScore(resume, jd) == 95)
  {
    MatchScoreNeutral(resume, jd);
  }

  /** Every JD word found in the résumé gives the cap 95; none found gives the floor 30. */
  lemma MatchScoreExtremes(resume: string, jd: string)
    requires !AllWhitespace(jd)
    ensures (forall w :: w in JdWords(jd) ==> Contains(ToLower(resume), w)) ==> CalculateMatchScore(resume, jd) == 95
    ensures (forall w :: w in JdWords(jd) ==> !Contains(ToLower(resume), w)) ==> CalculateMatchScore(resume, jd) == 30
  {
    MatchScoreNeutral(resume, jd);
    var words := JdWords(jd);
    var lowered := ToLower(resume);
    if forall w :: w in words ==> Contains(lowered, w) {
      assert forall i :: 0 <= i < |words| ==> words[i] in words;
      assert MatchedWords(resume, jd) == |words|;
    }
    if forall w :: w in words ==> !Contains(lowered, w) {
      assert forall i :: 0 <= i < |words| ==> words[i] in words;
      assert MatchedWords(resume, jd) == 0;
    }
  }

  /** How many of the JD's table terms occur in the résumé, both sides lower-cased. */
  function CoveredKeywords(resume: string, jd: string): (n: nat)
    ensures n <= |ExtractKeywordsFromText(jd)|
  {
    var lowered := ToLower(resume);
    Count(ExtractKeywordsFromText(jd), k => Contains(lowered, ToLower(k)))
  }

  /**
   * `calculate_keyword_coverage`: 70 when the JD names no table term; otherwise the
   * truncated percentage of those terms the résumé covers, capped at 95.
   */
  function CalculateKeywordCoverage(resume: string, jd: string): (score: U8)
    ensures ExtractKeywordsFromText(jd) == [] ==> score == 70
    ensures ExtractKeywordsFromText(jd) != [] ==> score <= 95
  {
    var keywords := ExtractKeywordsFromText(jd);
    if keywords == [] then 70
    else
      var p := Percent(CoveredKeywords(resume, jd), |keywords|);
      if p > 95 then 95 else p
  }

  /** Lower-casing both sides keeps every occurrence. */
  lemma ContainsToLower(s: string, sub: string)
    requires Contains(s, sub)
    ensures Contains(ToLower(s), ToLower(sub))
  {
    var i :| 0 <= i <= |s| - |sub| && OccursAt(s, sub, i);
    assert ToLower(s)[i..i + |sub|] == ToLower(sub) by {
      forall k | 0 <= k < |sub|
        ensures ToLower(s)[i + k] == ToLower(sub)[k]
      {
        assert s[i..i + |sub|][k] == sub[k];
      }
    }
    assert OccursAt(ToLower(s), ToLower(sub), i);
  }

  /** A JD that names no table term scores 70, whatever the résumé. */
  lemma KeywordCoverageNeutral(resume: string, jd: string)
    requires forall t :: t in TechTerms ==> !Contains(jd, t)
    ensures CalculateKeywordCoverage(resume, jd) == 70
  {
    var keywords := ExtractKeywordsFromText(jd);
    assert forall i :: 0 <= i < |keywords| ==> keywords[i] in keywords;
  }

  /** A résumé that contains, verbatim, every table term of a JD naming one reaches the cap 95. */
  lemma KeywordCoverageFull(resume: string, jd: string)
    requires exists t :: t in TechTerms && Contains(jd, t)
    requires forall t :: t in TechTerms && Contains(jd, t) ==> Contains(resume, t)
    ensures CalculateKeywordCoverage(resume, jd) == 95
  {
    var keywords := ExtractKeywordsFromText(jd);
    var t :| t in TechTerms && Contains(jd, t);
    assert t in keywords;
    var lowered := ToLower(resume);
    forall i | 0 <= i < |keywords|
      ensures Contains(lowered, ToLower(keywords[i]))
    {
      assert keywords[i] in keywords;
      ContainsToLower(resume, keywords[i]);
    }
    assert CoveredKeywords(resume, jd) == |keywords|;
  }

  // ---------------------------------------------------------------- company and position

  /** `extract_company`: the first of 阿里巴巴, 腾讯, 字节 the JD mentions, with 字节 reported as 字节跳动. */
  function ExtractCompany(jd: string): (company: Option<string>)
    ensures company.None? <==> !Contains(jd, "阿里巴巴") && !Contains(jd, "腾讯") && !Contains(jd, "字节")
    ensures Contains(jd, "阿里巴巴") ==> company == Some("阿里巴巴")
    ensures !Contains(jd, "阿里巴巴") && Contains(jd, "腾讯") ==> company == Some("腾讯")
    ensures company.Some? ==> company.value in ["阿里巴巴", "腾讯", "字节跳动"]
  {
    if Contains(jd, "阿里巴巴") then Some("阿里巴巴")
    else if Contains(jd, "腾讯") then Some("腾讯")
    else if Contains(jd, "字节") then Some("字节跳动")
    else None
  }

  /** `extract_position`: the first of 工程师, 开发, 经理 the JD mentions; the result always occurs in the JD. */
  function ExtractPosition(jd: string): (position: Option<string>)
    ensures position.None? <==> !Contains(jd, "工程师") && !Contains(jd, "开发") && !Contains(jd, "经理")
    ensures Contains(jd, "工程师") ==> position == Some("工程师")
    ensures !Contains(jd, "工程师") && Contains(jd, "开发") ==> position == Some("开发")
    ensures position.Some? ==> Contains(jd, position.value)
  {
    if Contains(jd, "工程师") then Some("工程师")
    else if Contains(jd, "开发") then Some("开发")
    else if Contains(jd, "经理") then Some("经理")
    else None
  }

  // ---------------------------------------------------------------- cover letter

  const CoverLetterOpening: string := "尊敬的招聘经理：\n\n您好！\n\n我写信是希望申请贵公司的"

  const CoverLetterMiddle: string :=
    "职位。通过仔细阅读职位描述，我发现自己具备该岗位所需的核心能力和经验。\n\n## 核心优势\n\n"

  const CoverLetterClosing: string :=
    "\n\n## 为什么选择我\n\n"
    + "- 具备岗位要求的关键技能和经验\n"
    + "- 对该领域充满热情，持续学习进步\n"
    + "- 良好的团队协作和沟通能力\n"
    + "- 注重细节，追求卓越\n\n"
    + "## 期待机会\n\n"
    + "我非常期待能有机会与您面谈，进一步展示我的能力和对这份工作的热情。感谢您抽出宝贵时间阅读我的申请。\n\n"
    + "此致\n敬礼！\n\n[您的姓名]\n[日期]"

  /** The position named in the letter: the extracted one, else the fallback 该职位. */
  function CoverLetterPosition(jd: string): (position: string)
    ensures ExtractPosition(jd).None? ==> position == "该职位"
    ensures ExtractPosition(jd).Some? ==> Contains(jd, position)
    ensures position in ["工程师", "开发", "经理", "该职位"]
  {
    ExtractPosition(jd).GetOr("该职位")
  }

  /** The résumé lines quoted under 核心优势: the first five lines, or all of them when there are fewer. */
  function CoverLetterHighlights(resume: string): (highlights: seq<string>)
    ensures |highlights| <= 5
    ensures highlights <= Lines(resume)
    ensures |Lines(resume)| <= 5 ==> highlights == Lines(resume)
  {
    Take(Lines(resume), 5)
  }

  /**
   * `generate_cover_letter`: the fixed template with the position after the
   * opening and the highlights joined by newlines. The extracted company is
   * computed and discarded by the source, so the letter never depends on it.
   */
  function GenerateCoverLetter(resume: string, jd: string): (letter: string)
    ensures StartsWith(letter, CoverLetterOpening + CoverLetterPosition(jd) + CoverLetterMiddle)
    ensures Contains(letter, Join(CoverLetterHighlights(resume), "\n"))
  {
    var _ := ExtractCompany(jd);
    var p := CoverLetterPosition(jd);
    var body := Join(CoverLetterHighlights(resume), "\n");
    var prefix := CoverLetterOpening + p + CoverLetterMiddle;
    var letter := prefix + body + CoverLetterClosing;
    assert letter[|prefix|..|prefix| + |body|] == body;
    assert OccursAt(letter, body, |prefix|);
    assert letter[..|prefix|] == prefix;
    letter
  }

  // ---------------------------------------------------------------- optimize

  /** The four advice rules of `optimize`, declared in the order they are tried. */
  datatype Advice = AddPython | StressTeamwork | TooShort | AddProjects {
    /** The message pushed onto `changes` when the rule fires. */
    function Message(): string
    {
      match this
      case AddPython => "建议添加 Python 相关经验"
      case StressTeamwork => "建议强调团队协作经验"
      case TooShort => "简历内容过短，建议补充更多细节"
      case AddProjects => "建议添加项目经验部分"
    }

    /** Position of the rule in `optimize`. */
    function Rank(): nat
    {
      match this
      case AddPython => 0
      case StressTeamwork => 1
      case TooShort => 2
      case AddProjects => 3
    }
  }

  /** Different rules push different messages. */
  lemma MessagesDistinct(a: Advice, b: Advice)
    ensures a.Message() == b.Message() <==> a == b
  {
    if a != b {
      assert a.Message()[2] != b.Message()[2] || a.Message()[4] != b.Message()[4]
          || a.Message()[0] != b.Message()[0];
    }
  }

  /** The messages of a list of fired rules, in the same order. */
  function Messages(fired: seq<Advice>): (texts: seq<string>)
    ensures |texts| == |fired|
    ensures forall i :: 0 <= i < |fired| ==> texts[i] == fired[i].Message()
  {
    if fired == [] then [] else Messages(fired[..|fired| - 1]) + [fired[|fired| - 1].Message()]
  }

  /** Firing one more rule appends its message. */
  lemma MessagesSnoc(fired: seq<Advice>, a: Advice)
    ensures Messages(fired + [a]) == Messages(fired) + [a.Message()]
  {
    assert (fired + [a])[..|fired|] == fired;
  }

  /** A rule's message is among the messages exactly when the rule fired. */
  lemma MessageIn(a: Advice, fired: seq<Advice>)
    ensures a.Message() in Messages(fired) <==> a in fired
  {
    var texts := Messages(fired);
    if a.Message() in texts {
      var i :| 0 <= i < |texts| && texts[i] == a.Message();
      MessagesDistinct(a, fired[i]);
    }
    if a in fired {
      var i :| 0 <= i < |fired| && fired[i] == a;
      assert texts[i] == a.Message();
    }
  }

  /** Some keyword contains `marker` (the `any` test of `optimize`). */
  predicate AnyContains(keywords: seq<string>, marker: string)
  {
    exists k :: k in keywords && Contains(k, marker)
  }

  /**
   * For a marker that is itself a table term, asking whether some extracted keyword
   * contains it is the same as asking whether the JD contains it.
   */
  lemma AnyKeywordContainsTerm(jd: string, marker: string)
    requires marker in TechTerms
    ensures AnyContains(ExtractKeywordsFromText(jd), marker) <==> Contains(jd, marker)
  {
    if AnyContains(ExtractKeywordsFromText(jd), marker) {
      var k :| k in ExtractKeywordsFromText(jd) && Contains(k, marker);
      ContainsTrans(jd, k, marker);
    }
    if Contains(jd, marker) {
      ContainsSelf(marker);
      assert marker in ExtractKeywordsFromText(jd);
    }
  }

  /** The Python rule: some JD keyword mentions Python and the résumé does not. */
  predicate PythonRule(resume: string, jd: string)
  {
    AnyContains(ExtractKeywordsFromText(jd), "Python") && !Contains(resume, "Python")
  }

  /** The teamwork rule: some JD keyword mentions 团队 and the résumé does not. */
  predicate TeamworkRule(resume: string, jd: string)
  {
    AnyContains(ExtractKeywordsFromText(jd), "团队") && !Contains(resume, "团队")
  }

  /** The length rule: the résumé is under 500 UTF-8 bytes. */
  predicate ShortRule(resume: string)
  {
    ByteLen(resume) < 500
  }

  /** The project rule: the résumé mentions neither 项目 nor Project. */
  predicate ProjectsRule(resume: string)
  {
    !Contains(resume, "项目") && !Contains(resume, "Project")
  }

  /** The Python rule fires exactly when the JD mentions Python and the résumé does not. */
  lemma PythonRuleMeaning(resume: string, jd: string)
    ensures PythonRule(resume, jd) <==> Contains(jd, "Python") && !Contains(resume, "Python")
  {
    assert TechTerms[0] == "Python";
    AnyKeywordContainsTerm(jd, "Python");
  }

  /** The teamwork rule fires exactly when the JD mentions 团队 and the résumé does not. */
  lemma TeamworkRuleMeaning(resume: string, jd: string)
    ensures TeamworkRule(resume, jd) <==> Contains(jd, "团队") && !Contains(resume, "团队")
  {
    assert TechTerms[18] == "团队";
    AnyKeywordContainsTerm(jd, "团队");
  }

  /** `fired`, with rule `a` appended when it fires. */
  function Push(fired: seq<Advice>, fires: bool, a: Advice): seq<Advice>
  {
    if fires then fired + [a] else fired
  }

  /** The rules among four whose flag is set, in rule order. */
  function Fired(python: bool, teamwork: bool, short: bool, projects: bool): (fired: seq<Advice>)
    ensures AddPython in fired <==> python
    ensures StressTeamwork in fired <==> teamwork
    ensures TooShort in fired <==> short
    ensures AddProjects in fired <==> projects
    ensures forall i, j :: 0 <= i < j < |fired| ==> fired[i].Rank() < fired[j].Rank()
  {
    Push(Push(Push(Push([], python, AddPython), teamwork, StressTeamwork), short, TooShort), projects, AddProjects)
  }

  /**
   * The rules `optimize` fires, in rule order: the Python and teamwork rules fire
   * when the JD mentions the term and the résumé does not; the length rule when
   * the résumé is under 500 UTF-8 bytes; the project rule when the résumé
   * mentions neither 项目 nor Project.
   */
  function FiredAdvice(resume: string, jd: string): (fired: seq<Advice>)
    ensures AddPython in fired <==> Contains(jd, "Python") && !Contains(resume, "Python")
    ensures StressTeamwork in fired <==> Contains(jd, "团队") && !Contains(resume, "团队")
    ensures TooShort in fired <==> ByteLen(resume) < 500
    ensures AddProjects in fired <==> !Contains(resume, "项目") && !Contains(resume, "Project")
    ensures forall i, j :: 0 <= i < j < |fired| ==> fired[i].Rank() < fired[j].Rank()
  {
    PythonRuleMeaning(resume, jd);
    TeamworkRuleMeaning(resume, jd);
    Fired(PythonRule(resume, jd), TeamworkRule(resume, jd), ShortRule(resume), ProjectsRule(resume))
  }

  /** The report `optimize` returns: the résumé, then the advice joined as a list. */
  function OptimizedReport(resume: string, changes: seq<string>): string
  {
    "# 优化后的简历\n\n" + resume + "\n\n## 💡 优化建议\n\n" + Join(changes, "\n- ") + "\n"
  }

  /**
   * `optimize`: pushes the message of each rule that fires, in rule order, scores
   * the match, and wraps the résumé and the advice in the report.
   */
  method Optimize(resume: string, jd: string) returns (result: OptimizeResult)
    ensures result.changes == Messages(FiredAdvice(resume, jd))
    ensures result.matchScore == CalculateMatchScore(resume, jd)
    ensures result.optimizedResume == OptimizedReport(resume, result.changes)
  {
    var jdKeywords := ExtractKeywordsFromText(jd);
    var changes: seq<string> := [];
    ghost var fired: seq<Advice> := [];
    if AnyContains(jdKeywords, "Python") && !Contains(resume, "Python") {
      MessagesSnoc(fired, AddPython);
      changes := changes + [AddPython.Message()];
      fired := fired + [AddPython];
    }
    ghost var fired1 := fired;
    assert fired1 == Push([], PythonRule(resume, jd), AddPython);
    if AnyContains(jdKeywords, "团队") && !Contains(resume, "团队") {
      MessagesSnoc(fired, StressTeamwork);
      changes := changes + [StressTeamwork.Message()];
      fired := fired + [StressTeamwork];
    }
    ghost var fired2 := fired;
    assert fired2 == Push(fired1, TeamworkRule(resume, jd), StressTeamwork);
    if ByteLen(resume) < 500 {
      MessagesSnoc(fired, TooShort);
      changes := changes + [TooShort.Message()];
      fired := fired + [TooShort];
    }
    ghost var fired3 := fired;
    assert fired3 == Push(fired2, ShortRule(resume), TooShort);
    if !Contains(resume, "项目") && !Contains(resume, "Project") {
      MessagesSnoc(fired, AddProjects);
      changes := changes + [AddProjects.Message()];
      fired := fired + [AddProjects];
    }
    assert fired == Push(fired3, ProjectsRule(resume), AddProjects);
    assert changes == Messages(fired);
    var matchScore := CalculateMatchScore(resume, jd);
    result := OptimizeResult(OptimizedReport(resume, changes), changes, matchScore);
  }

  /** The short-résumé advice appears exactly when the résumé is under 500 bytes, whatever the JD. */
  lemma OptimizeShortResumeAdvice(resume: string, jd: string)
    ensures TooShort.Message() in Messages(FiredAdvice(resume, jd)) <==> ByteLen(resume) < 500
  {
    MessageIn(TooShort, FiredAdvice(resume, jd));
  }

  /**
   * Each rule's message appears at most once, and the messages keep rule order:
   * a message of an earlier rule never follows one of a later rule.
   */
  lemma OptimizeAdviceOrdered(resume: string, jd: string, i: nat, j: nat)
    requires i < j < |Messages(FiredAdvice(resume, jd))|
    ensures var fired := FiredAdvice(resume, jd);
      Messages(fired)[i] != Messages(fired)[j] && fired[i].Rank() < fired[j].Rank()
  {
    var fired := FiredAdvice(resume, jd);
    MessagesDistinct(fired[i], fired[j]);
  }

  // ---------------------------------------------------------------- score

  const Suggestions: seq<string> := [
    "建议在开头添加个人简介，突出核心竞争力",
    "使用量化数据展示工作成果（如：提升效率 30%）",
    "将最相关的经验放在前面",
    "确保联系方式完整且专业"
  ]

  /** The four category names of `score`, in order. */
  const CategoryNames: seq<string> := ["技能匹配", "经验相关度", "关键词覆盖", "格式规范"]

  /**
   * The four categories of `score`: skills (85 when the résumé mentions 技能 or
   * 技术, else 60), experience (80 when it mentions 年 or 经验, else 50), keyword
   * coverage, and layout (75 when the résumé is over 300 UTF-8 bytes, else 50).
   */
  function Categories(resume: string, jd: string): (categories: seq<ScoreCategory>)
    ensures |categories| == |CategoryNames|
    ensures categories[0].name == CategoryNames[0] && categories[1].name == CategoryNames[1]
    ensures categories[2].name == CategoryNames[2] && categories[3].name == CategoryNames[3]
    ensures categories[0].score == 85 <==> Contains(resume, "技能") || Contains(resume, "技术")
    ensures categories[0].score == 85 || categories[0].score == 60
    ensures categories[1].score == 80 <==> Contains(resume, "年") || Contains(resume, "经验")
    ensures categories[1].score == 80 || categories[1].score == 50
    ensures categories[2].score == CalculateKeywordCoverage(resume, jd)
    ensures categories[3].score == 75 <==> ByteLen(resume) > 300
    ensures categories[3].score == 75 || categories[3].score == 50
  {
    var skills := if Contains(resume, "技能") || Contains(resume, "技术") then 85 else 60;
    var experience := if Contains(resume, "年") || Contains(resume, "经验") then 80 else 50;
    var layout := if ByteLen(resume) > 300 then 75 else 50;
    [
      ScoreCategory(CategoryNames[0], skills, "技能描述清晰，建议突出与职位相关的核心技能"),
      ScoreCategory(CategoryNames[1], experience, "工作经验与职位要求匹配度较高"),
      ScoreCategory(CategoryNames[2], CalculateKeywordCoverage(resume, jd), "已覆盖大部分职位关键词"),
      ScoreCategory(CategoryNames[3], layout, "简历结构清晰，建议使用更专业的排版")
    ]
  }

  /**
   * `score`: the overall score is the match score, the categories are the four
   * fixed ones, and the suggestions are the same four for every input.
   */
  function Score(resume: string, jd: string): (result: ScoreResult)
    ensures result.overallScore == CalculateMatchScore(resume, jd)
    ensures result.categories == Categories(resume, jd)
    ensures result.suggestions == Suggestions
  {
    ScoreResult(CalculateMatchScore(resume, jd), Categories(resume, jd), Suggestions)
  }
}
