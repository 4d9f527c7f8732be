/** What `copyTemplate` makes of the template forms that read the options: feature
    blocks, the project name, helper calls on a feature flag, and the extra variables
    a call passes. */
module CopyLaws {
  import opened Wrappers
  import opened Text
  import opened Values
  import opened Template
  import opened Blocks
  import opened BlockLaws
  import opened Tokens
  import opened Options
  import opened Pieces
  import opened PieceRender

  /** The option keys that hold a yes/no answer. */
  const FeatureKeys: seq<string> := ["authentication", "swagger", "docker", "testing"]

  /** The answer an option key holds. */
  function FeatureOn(o: Options, k: string): bool
    requires k in FeatureKeys
  {
    if k == "authentication" then o.authentication
    else if k == "swagger" then o.swagger
    else if k == "docker" then o.docker
    else o.testing
  }

  /** Every feature key holds its answer as a boolean in the options' variable map. */
  lemma FeatureValue(o: Options, k: string)
    requires k in FeatureKeys
    ensures k in Keys(OptionVars(o)) && IsWordString(k)
    ensures ValueOf(OptionVars(o), k) == Bool(FeatureOn(o, k))
  {
    FeatureKeyWord(k);
    if k == "authentication" {
      OptionValue(o, k, 1);
    } else if k == "swagger" {
      OptionValue(o, k, 2);
    } else if k == "docker" {
      OptionValue(o, k, 3);
    } else {
      OptionValue(o, k, 4);
    }
  }

  lemma OptionValue(o: Options, k: string, i: nat)
    requires i < 5 && Keys(OptionVars(o))[i] == k
    ensures k in Keys(OptionVars(o)) && ValueOf(OptionVars(o), k) == OptionVars(o)[i].1
  {
    ValueOfDistinct(OptionVars(o), i);
  }

  lemma FeatureKeyWord(k: string)
    requires k in FeatureKeys
    ensures IsWordString(k)
  {
    if k == "authentication" {
      assert IsWordString("authentication");
    } else if k == "swagger" {
      assert IsWordString("swagger");
    } else if k == "docker" {
      assert IsWordString("docker");
    } else {
      assert IsWordString("testing");
    }
  }

  /** A template that is one feature block, `{{#if k}}x{{/if}}` or `{{#if !k}}x{{/if}}`,
      copies to `x` when the answer matches the block's polarity and to nothing
      otherwise. */
  lemma FeatureBlockCopy(store: map<string, string>, o: Options, tf: string, df: string, c: Cond, x: string)
    requires tf in store && store[tf] == BlockText(c, x)
    requires !c.WhenEq? && c.key in FeatureKeys && NoOpen(x)
    ensures CopyTemplate(store, o, [], tf, df) == Ok(Some((df, if FeatureOn(o, c.key) == c.When? then x else "")))
  {
    MergeNothing(OptionVars(o));
    FeatureValue(o, c.key);
    PlainBlockRenders(c, x, OptionVars(o));
  }

  /** A feature flag compared with `if_eq` never keeps its block: the comparison is
      strict and the flag is a boolean. */
  lemma FeatureEqBlockCopy(store: map<string, string>, o: Options, tf: string, df: string, k: string, w: string, x: string)
    requires tf in store && store[tf] == BlockText(WhenEq(k, w), x)
    requires k in FeatureKeys && IsWordString(w) && NoOpen(x)
    ensures CopyTemplate(store, o, [], tf, df) == Ok(Some((df, "")))
  {
    MergeNothing(OptionVars(o));
    FeatureValue(o, k);
    PlainBlockRenders(WhenEq(k, w), x, OptionVars(o));
  }

  /** `{{ projectName }}` copies to the project name. */
  lemma ProjectNameCopy(store: map<string, string>, o: Options, tf: string, df: string, w1: string, w2: string)
    requires tf in store && store[tf] == PlaceholderToken(w1, "projectName", w2)
    requires AllSpace(w1) && AllSpace(w2) && NoOpen(o.projectName)
    ensures CopyTemplate(store, o, [], tf, df) == Ok(Some((df, o.projectName)))
  {
    MergeNothing(OptionVars(o));
    OptionValues(o);
    PlaceholderRenders(w1, "projectName", w2, OptionVars(o));
  }

  /** `{{capitalizeFirstLetter k}}` on a feature flag throws, naming the flag: the
      helper is handed a boolean. */
  lemma FeatureHelperThrows(store: map<string, string>, o: Options, tf: string, df: string, k: string)
    requires tf in store && store[tf] == HelperToken(k)
    requires k in FeatureKeys
    ensures CopyTemplate(store, o, [], tf, df) == Err(k)
  {
    MergeNothing(OptionVars(o));
    FeatureValue(o, k);
    HelperTokenRenders(k, OptionVars(o));
  }

  /** An extra variable wins over an option of the same name, and a placeholder of it
      copies to the extra value. */
  lemma ExtraPlaceholderCopy(store: map<string, string>, o: Options, extra: Vars, tf: string, df: string,
                             w1: string, k: string, w2: string, s: string)
    requires tf in store && store[tf] == PlaceholderToken(w1, k, w2)
    requires ValidVars(extra) && ValueOf(extra, k) == Str(s) && NoOpen(s)
    requires AllSpace(w1) && IsWordString(k) && AllSpace(w2)
    ensures CopyTemplate(store, o, extra, tf, df) == Ok(Some((df, s)))
  {
    var vars := Merge(OptionVars(o), extra);
    MergeValid(OptionVars(o), extra);
    MergeLookup(OptionVars(o), extra, k);
    PlaceholderRenders(w1, k, w2, vars);
  }

  // ---- the same forms inside a larger template ----

  /** A feature block between plain texts copies to the texts with the block resolved
      in place: its content when the answer matches the block's polarity, nothing
      otherwise. */
  lemma FeatureBlockInContext(store: map<string, string>, o: Options, tf: string, df: string,
                              pre: string, c: Cond, x: string, post: string)
    requires tf in store && store[tf] == pre + BlockText(c, x) + post
    requires !c.WhenEq? && c.key in FeatureKeys && PlainText(x) && PlainText(pre) && PlainText(post)
    ensures CopyTemplate(store, o, [], tf, df)
         == Ok(Some((df, pre + (if FeatureOn(o, c.key) == c.When? then x else "") + post)))
  {
    MergeNothing(OptionVars(o));
    FeatureValue(o, c.key);
    ValidWordKeys(OptionVars(o));
    BlockInContext(OptionVars(o), pre, c, x, post);
  }

  /** An `if_eq` block on a feature flag between plain texts copies to the texts alone. */
  lemma FeatureEqBlockInContext(store: map<string, string>, o: Options, tf: string, df: string,
                                pre: string, k: string, w: string, x: string, post: string)
    requires tf in store && store[tf] == pre + BlockText(WhenEq(k, w), x) + post
    requires k in FeatureKeys && IsWordString(w) && PlainText(x) && PlainText(pre) && PlainText(post)
    ensures CopyTemplate(store, o, [], tf, df) == Ok(Some((df, pre + post)))
  {
    MergeNothing(OptionVars(o));
    FeatureValue(o, k);
    ValidWordKeys(OptionVars(o));
    assert !Kept(WhenEq(k, w), OptionVars(o));
    BlockInContext(OptionVars(o), pre, WhenEq(k, w), x, post);
    EmptyMiddle(pre, post);
  }

  lemma EmptyMiddle(a: string, b: string)
    ensures a + "" + b == a + b
  {
    assert a + "" == a;
  }

  /** `{{ projectName }}` between plain texts copies to the texts around the name. */
  lemma ProjectNameInContext(store: map<string, string>, o: Options, tf: string, df: string,
                             pre: string, w1: string, w2: string, post: string)
    requires tf in store && store[tf] == pre + PlaceholderToken(w1, "projectName", w2) + post
    requires AllSpace(w1) && AllSpace(w2) && PlainText(o.projectName) && PlainText(pre) && PlainText(post)
    ensures CopyTemplate(store, o, [], tf, df) == Ok(Some((df, pre + o.projectName + post)))
  {
    MergeNothing(OptionVars(o));
    OptionValues(o);
    ValidWordKeys(OptionVars(o));
    assert IsWordString("projectName");
    PlaceholderInContext(OptionVars(o), pre, w1, "projectName", w2, post);
  }

  /** A helper call on a feature flag throws wherever it stands. */
  lemma FeatureHelperInContext(store: map<string, string>, o: Options, tf: string, df: string,
                               pre: string, k: string, post: string)
    requires tf in store && store[tf] == pre + HelperToken(k) + post
    requires k in FeatureKeys && PlainText(pre) && PlainText(post)
    ensures CopyTemplate(store, o, [], tf, df) == Err(k)
  {
    MergeNothing(OptionVars(o));
    FeatureValue(o, k);
    ValidWordKeys(OptionVars(o));
    HelperInContext(OptionVars(o), pre, k, post);
  }

  /** A placeholder of an extra variable between plain texts copies to the texts around
      the extra value. */
  lemma ExtraPlaceholderInContext(store: map<string, string>, o: Options, extra: Vars, tf: string, df: string,
                                  pre: string, w1: string, k: string, w2: string, post: string, s: string)
    requires tf in store && store[tf] == pre + PlaceholderToken(w1, k, w2) + post
    requires ValidVars(extra) && ValueOf(extra, k) == Str(s) && PlainText(s)
    requires AllSpace(w1) && IsWordString(k) && AllSpace(w2) && PlainText(pre) && PlainText(post)
    ensures CopyTemplate(store, o, extra, tf, df) == Ok(Some((df, pre + s + post)))
  {
    var vars := Merge(OptionVars(o), extra);
    MergeValid(OptionVars(o), extra);
    MergeLookup(OptionVars(o), extra, k);
    ValidWordKeys(vars);
    PlaceholderInContext(vars, pre, w1, k, w2, post);
  }
}
