/** filter.py: the mother–daughter relevance classifier, a cascade of substring
    rules over three fixed keyword lists, and the filter that applies it. */
module Filter {

  import opened Options
  import opened Text
  import opened Records

  /** Tier-1 words: any one of them marks a review as relevant. Note "母子"
      (mother–son) among them. */
  const StrongKeywords: seq<string> := [
    "母女", "母子", "母女关系", "母女情", "母女线", "母女档",
    "母爱", "亲子关系", "母职", "妈妈们", "母亲角色",
    "单亲妈妈", "独生女", "母女俩", "娘亲", "囡囡", "小棉袄",
    "慈母", "贤女", "母性光辉", "抚养女儿", "养育女儿", "陪伴女儿"
  ]

  /** Tier-2 words for the mother. */
  const MotherWords: seq<string> := [
    "妈妈", "母亲", "娘", "妈", "母", "老妈", "妈咪", "娘亲",
    "她妈", "他妈", "单亲妈妈", "慈母", "母上", "母親大人",
    "宝妈", "母性", "养母", "继母"
  ]

  /** Tier-2 words for the daughter. */
  const DaughterWords: seq<string> := [
    "女儿", "闺女", "姑娘", "小姑娘", "丫头", "囡囡", "小棉袄",
    "她女儿", "他女儿", "独生女", "贤女", "乖女儿", "囡儿",
    "千金", "小丫头", "干女儿"
  ]

  /** `any(k in content for k in words)`. */
  predicate AnyIn(words: seq<string>, content: string) {
    exists i :: 0 <= i < |words| && Contains(content, words[i])
  }

  /** Rule 1: a strong keyword occurs. */
  predicate StrongRule(content: string) {
    AnyIn(StrongKeywords, content)
  }

  /** Rule 2: some mother word occurs and some daughter word occurs; the two
      checks are independent, so one occurrence may serve both. */
  predicate PairRule(content: string) {
    AnyIn(MotherWords, content) && AnyIn(DaughterWords, content)
  }

  /** Rule 3, first check: "她" and "妈". */
  predicate PronounMotherRule(content: string) {
    Contains(content, "她") && Contains(content, "妈")
  }

  /** Rule 3, second check: "她" and "女儿". */
  predicate PronounDaughterRule(content: string) {
    Contains(content, "她") && Contains(content, "女儿")
  }

  /** Rule 4: "亲情戏" or "家庭线", together with "母" or "妈". */
  predicate GenreRule(content: string) {
    (Contains(content, "亲情戏") || Contains(content, "家庭线"))
    && (Contains(content, "母") || Contains(content, "妈"))
  }

  /** The order-independent reading of the classifier: the OR of the rules. */
  predicate IsRelevant(content: string) {
    StrongRule(content) || PairRule(content) || PronounMotherRule(content)
    || PronounDaughterRule(content) || GenreRule(content)
  }

  /** The cascade as the loop body runs it: the number of the first rule that
      fires (1 to 4), or `None` when the record is not appended. */
  function FirstRule(content: string): (rule: Option<nat>)
    ensures rule.Some? <==> IsRelevant(content)
    ensures rule == Some(1) <==> StrongRule(content)
    ensures rule.Some? ==> 1 <= rule.value <= 4
  {
    if StrongRule(content) then Some(1)
    else if PairRule(content) then Some(2)
    else if PronounMotherRule(content) then Some(3)
    else if PronounDaughterRule(content) then Some(3)
    else if GenreRule(content) then Some(4)
    else None
  }

  /** `filter_mother_daughter(comments)`: the records whose content the cascade
      accepts, each at most once, unmodified, in input order. Every record must
      have a string `"content"` (the source indexes it directly). */
  function FilterMotherDaughter(comments: seq<Record>): (filtered: seq<Record>)
    requires AllHaveTextContent(comments)
    ensures |filtered| <= |comments|
    ensures forall r | r in filtered :: r in comments && IsRelevant(Content(r))
    ensures forall r | r in comments && IsRelevant(Content(r)) :: r in filtered
    ensures AllHaveTextContent(filtered)
    decreases |comments|
  {
    if |comments| == 0 then []
    else
      var c := comments[0];
      var rest := FilterMotherDaughter(comments[1..]);
      assert forall r | r in comments :: r == c || r in comments[1..];
      if FirstRule(Content(c)).Some? then [c] + rest else rest
  }

  /** `xs` is obtained from `ys` by deleting elements. */
  ghost predicate IsSubsequence<T>(xs: seq<T>, ys: seq<T>)
    decreases |ys|
  {
    if |xs| == 0 then true
    else if |ys| == 0 then false
    else (xs[0] == ys[0] && IsSubsequence(xs[1..], ys[1..])) || IsSubsequence(xs, ys[1..])
  }

  /** The output keeps input order: it is a subsequence of the input. */
  lemma {:induction false} FilterIsSubsequence(comments: seq<Record>)
    requires AllHaveTextContent(comments)
    ensures IsSubsequence(FilterMotherDaughter(comments), comments)
    decreases |comments|
  {
    if |comments| > 0 {
      FilterIsSubsequence(comments[1..]);
      var f := FilterMotherDaughter(comments);
      var rest := FilterMotherDaughter(comments[1..]);
      if f != rest {
        assert f == [comments[0]] + rest;
        assert f[1..] == rest;
      }
    }
  }

  /** No record is duplicated: each occurs in the output at most as often as in the input. */
  lemma {:induction false} FilterMultiplicity(comments: seq<Record>)
    requires AllHaveTextContent(comments)
    ensures multiset(FilterMotherDaughter(comments)) <= multiset(comments)
    decreases |comments|
  {
    if |comments| > 0 {
      FilterMultiplicity(comments[1..]);
      assert comments == [comments[0]] + comments[1..];
    }
  }

  /** Filtering distributes over concatenation: the decision for a record does not
      depend on its neighbours. */
  lemma {:induction false} FilterConcat(a: seq<Record>, b: seq<Record>)
    requires AllHaveTextContent(a) && AllHaveTextContent(b)
    ensures AllHaveTextContent(a + b)
    ensures FilterMotherDaughter(a + b) == FilterMotherDaughter(a) + FilterMotherDaughter(b)
    decreases |a|
  {
    if |a| > 0 {
      assert (a + b)[0] == a[0];
      assert (a + b)[1..] == a[1..] + b;
      FilterConcat(a[1..], b);
    } else {
      assert a + b == b;
    }
  }

  /** Filtering twice is filtering once. */
  lemma {:induction false} FilterIdempotent(comments: seq<Record>)
    requires AllHaveTextContent(comments)
    ensures FilterMotherDaughter(FilterMotherDaughter(comments)) == FilterMotherDaughter(comments)
    decreases |comments|
  {
    if |comments| > 0 {
      var c := comments[0];
      var rest := FilterMotherDaughter(comments[1..]);
      FilterIdempotent(comments[1..]);
      if IsRelevant(Content(c)) {
        assert ([c] + rest)[1..] == rest;
      }
    }
  }

  /** Every keyword is non-empty, so empty content satisfies no rule. */
  lemma EmptyContentNeverKept()
    ensures !IsRelevant("")
    ensures FirstRule("") == None
  {
    forall i | 0 <= i < |StrongKeywords| ensures !Contains("", StrongKeywords[i]) {
      EmptyContainsNothing(StrongKeywords[i]);
    }
    forall i | 0 <= i < |MotherWords| ensures !Contains("", MotherWords[i]) {
      EmptyContainsNothing(MotherWords[i]);
    }
  }

  /** A word list none of whose words can start inside `s`. */
  lemma NoWordStartsIn(s: string, words: seq<string>, initials: set<char>)
    requires forall i | 0 <= i < |words| :: |words[i]| > 0 && words[i][0] in initials
    requires forall k | 0 <= k < |s| :: s[k] !in initials
    ensures !AnyIn(words, s)
  {
    forall i | 0 <= i < |words| ensures Contains(s, words[i]) ==> words[i][0] in s {
      ContainsChar(s, words[i], 0);
    }
  }

  const StrongInitials: set<char> := {'母', '亲', '妈', '单', '独', '娘', '囡', '小', '慈', '贤', '抚', '养', '陪'}
  const MotherInitials: set<char> := {'妈', '母', '娘', '老', '她', '他', '单', '慈', '宝', '养', '继'}
  const DaughterInitials: set<char> := {'女', '闺', '姑', '小', '丫', '囡', '她', '他', '独', '贤', '乖', '千', '干'}

  lemma InitialsCover()
    ensures forall i | 0 <= i < |StrongKeywords| :: |StrongKeywords[i]| > 0 && StrongKeywords[i][0] in StrongInitials
    ensures forall i | 0 <= i < |MotherWords| :: |MotherWords[i]| > 0 && MotherWords[i][0] in MotherInitials
    ensures forall i | 0 <= i < |DaughterWords| :: |DaughterWords[i]| > 0 && DaughterWords[i][0] in DaughterInitials
  {
  }

  /** A word list none of whose words has both its first and its last
      character in `s`. */
  lemma NoWordFitsIn(s: string, words: seq<string>)
    requires forall i | 0 <= i < |words| ::
               |words[i]| > 0 && !(words[i][0] in s && words[i][|words[i]| - 1] in s)
    ensures !AnyIn(words, s)
  {
    forall i | 0 <= i < |words|
      ensures Contains(s, words[i]) ==> words[i][0] in s && words[i][|words[i]| - 1] in s
    {
      ContainsChar(s, words[i], 0);
      ContainsChar(s, words[i], |words[i]| - 1);
    }
  }

  const Girl := "小姑娘"

  lemma StrongWordsMissGirl()
    ensures forall i | 0 <= i < |StrongKeywords| ::
              |StrongKeywords[i]| > 0 && !(StrongKeywords[i][0] in Girl && StrongKeywords[i][|StrongKeywords[i]| - 1] in Girl)
  {
  }

  /** Rule 2's two checks are independent: in "小姑娘" the mother word "娘" sits
      inside the daughter word "姑娘", and no strong keyword occurs, so the
      record is kept by rule 2 alone. */
  lemma GirlKeptByRuleTwo()
    ensures !StrongRule(Girl) && PairRule(Girl)
    ensures FirstRule(Girl) == Some(2)
  {
    assert Contains(Girl, MotherWords[2]) by { assert Girl[2..][..1] == MotherWords[2]; }
    assert Contains(Girl, DaughterWords[2]) by { assert Girl[1..][..2] == DaughterWords[2]; }
    StrongWordsMissGirl();
    NoWordFitsIn(Girl, StrongKeywords);
  }

  /** "母子" (mother and son) is a strong keyword: a review about a mother and her
      son, with no daughter word at all, is kept by rule 1. */
  lemma MotherSonKept()
    ensures FirstRule("母子") == Some(1)
    ensures !AnyIn(DaughterWords, "母子")
  {
    assert Contains("母子", StrongKeywords[1]);
    InitialsCover();
    NoWordStartsIn("母子", DaughterWords, DaughterInitials);
  }

  const SpecialEffectsReview := "这部电影的特效很棒"

  lemma SpecialEffectsNoKeyword()
    ensures !StrongRule(SpecialEffectsReview) && !AnyIn(MotherWords, SpecialEffectsReview)
  {
    InitialsCover();
    NoWordStartsIn(SpecialEffectsReview, StrongKeywords, StrongInitials);
    NoWordStartsIn(SpecialEffectsReview, MotherWords, MotherInitials);
  }

  /** A review about a daughter living with her mother is kept ("她" and "妈"). */
  lemma SampleWithPronounKept()
    ensures PronounMotherRule("她和妈妈一起生活") && FirstRule("她和妈妈一起生活").Some?
  {
    var s := "她和妈妈一起生活";
    assert Contains(s, "她");
    assert Contains(s, "妈") by { assert s[2..][..1] == "妈"; }
  }

  /** Without a strong keyword, a mother word, "她", "母" or "妈", no rule
      fires: rules 3 and 4 need "她" or one of "母" and "妈". */
  lemma NoRuleFires(s: string)
    requires !StrongRule(s) && !AnyIn(MotherWords, s)
    requires '她' !in s && '母' !in s && '妈' !in s
    ensures FirstRule(s) == None
  {
    ContainsChar(s, "她", 0);
    ContainsChar(s, "母", 0);
    ContainsChar(s, "妈", 0);
  }

  /** A review about special effects matches no rule. */
  lemma SampleSpecialEffectsDropped()
    ensures FirstRule(SpecialEffectsReview) == None
  {
    SpecialEffectsNoKeyword();
    NoRuleFires(SpecialEffectsReview);
  }

  /** A review naming the mother–daughter pair is kept by rule 1. */
  lemma SamplePairKept()
    ensures FirstRule("母女俩的故事让人感动") == Some(1)
  {
    assert Contains("母女俩的故事让人感动", StrongKeywords[0]);
  }
}
