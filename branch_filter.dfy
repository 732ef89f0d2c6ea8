/**
 * The branch admission predicate of a build request (`Request#approved?`):
 * given the request's configuration and the branch of its commit, decide
 * whether a build may run for that branch.
 *
 * The `branches` entry of the configuration comes in several shapes; they are
 * normalised once into a closed `FilterSpec`, and the decision is taken on
 * that.  Branch names in a list are compared as exact strings.
 */
module BranchFilter {
  import opened Strings

  datatype Option<T> = None | Some(value: T)

  /** A list of branch names as it may be written in the configuration. */
  datatype NameList =
    | CommaSeparated(text: string)   // 'master, develop'
    | Listed(names: seq<string>)     // ['master', 'develop']

  /** The value of the `branches` key. */
  datatype Branches =
    | Plain(list: NameList)                                   // branches: <list>
    | Keyed(only: Option<NameList>, except: Option<NameList>) // branches: {only: .., except: ..}

  /** The part of a request's configuration the predicate reads. */
  datatype Config = Config(branches: Option<Branches>)

  /** The normalised filter. */
  datatype FilterSpec = NoFilter | Only(names: seq<string>) | Except(names: seq<string>)

  /** Strip every piece of a list. */
  function TrimAll(parts: seq<string>): (r: seq<string>)
    ensures |r| == |parts|
    ensures forall i :: 0 <= i < |parts| ==> r[i] == Trim(parts[i])
  {
    if parts == [] then [] else [Trim(parts[0])] + TrimAll(parts[1..])
  }

  /** The branch names a list stands for: a string is split on commas and each
      piece stripped; an array is taken as it is. */
  function Names(list: NameList): (r: seq<string>)
    ensures list.Listed? ==> r == list.names
    ensures list.CommaSeparated? ==> |r| == |Split(list.text)| >= 1
    ensures list.CommaSeparated? ==> forall i :: 0 <= i < |r| ==> IsTrimmed(r[i]) && NoComma(r[i])
  {
    match list
    case CommaSeparated(text) => TrimAll(Split(text))
    case Listed(names) => names
  }

  /** Name `i` of a comma-separated text is field `i` of the text with only
      whitespace removed around it. */
  lemma NamesAreStrippedFields(text: string, i: nat)
    requires i < |Split(text)|
    ensures i < |Names(CommaSeparated(text))|
    ensures exists a, b :: AllSpace(a) && AllSpace(b) && Split(text)[i] == a + Names(CommaSeparated(text))[i] + b
  {
    TrimRemovesOnlySpace(Split(text)[i]);
  }

  /** Normalise the raw configuration.  When both `only` and `except` are
      given, `only` decides and `except` is ignored. */
  function Normalize(config: Config): FilterSpec
  {
    match config.branches
    case None => NoFilter
    case Some(Plain(list)) => Only(Names(list))
    case Some(Keyed(Some(only), _)) => Only(Names(only))
    case Some(Keyed(None, Some(except))) => Except(Names(except))
    case Some(Keyed(None, None)) => NoFilter
  }

  /** The decision on a normalised filter. */
  predicate Admits(spec: FilterSpec, branch: string) {
    match spec
    case NoFilter => true
    case Only(names) => branch in names
    case Except(names) => branch !in names
  }

  /** `approved?`: whether a build may run for `branch` under `config`. */
  predicate Approved(config: Config, branch: string) {
    Admits(Normalize(config), branch)
  }

  /** Without a `branches` key every branch is approved. */
  lemma NoBranchesApprovesAll(branch: string)
    ensures Approved(Config(None), branch)
  {
  }

  /** A plain list or an `only` list approves exactly the branches it names. */
  lemma OnlyApprovesListed(list: NameList, except: Option<NameList>, branch: string)
    ensures Approved(Config(Some(Plain(list))), branch) <==> branch in Names(list)
    ensures Approved(Config(Some(Keyed(Some(list), except))), branch) <==> branch in Names(list)
  {
  }

  /** An `except` list (without `only`) approves exactly the branches it does not name. */
  lemma ExceptApprovesUnlisted(list: NameList, branch: string)
    ensures Approved(Config(Some(Keyed(None, Some(list)))), branch) <==> branch !in Names(list)
  {
  }

  /** A plain list normalises exactly as the same list under `only`, whatever
      `except` says beside it. */
  lemma PlainIsOnly(list: NameList, except: Option<NameList>)
    ensures Normalize(Config(Some(Plain(list)))) == Normalize(Config(Some(Keyed(Some(list), except))))
  {
  }

  /** Each name with whitespace padding in front of it and behind it. */
  function Padded(names: seq<string>, before: seq<string>, after: seq<string>): seq<string>
    requires |before| == |names| == |after|
  {
    seq(|names|, i requires 0 <= i < |names| => before[i] + names[i] + after[i])
  }

  /** However each name is padded with whitespace, the comma-separated text
      of a list of names reads as that list. */
  lemma NamesOfPadded(names: seq<string>, before: seq<string>, after: seq<string>)
    requires |names| >= 1 && |before| == |names| == |after|
    requires forall i :: 0 <= i < |names| ==> NoComma(names[i]) && IsTrimmed(names[i])
    requires forall i :: 0 <= i < |names| ==> AllSpace(before[i]) && AllSpace(after[i])
    ensures Names(CommaSeparated(Join(Padded(names, before, after), ","))) == names
  {
    var parts := Padded(names, before, after);
    forall i | 0 <= i < |parts| ensures NoComma(parts[i]) && Trim(parts[i]) == names[i] {
      NoCommaPadded(before[i], names[i], after[i]);
      TrimOfPadded(before[i], names[i], after[i]);
    }
    SplitJoin(parts);
  }

  /** A branches string such as 'a, b', 'a,b' or ' a , b ' normalises to the
      same filter as the array ['a', 'b'], and so decides alike for every
      branch, whether given directly, under `only` or under `except`. */
  lemma StringFormIsArrayForm(names: seq<string>, before: seq<string>, after: seq<string>, branch: string)
    requires |names| >= 1 && |before| == |names| == |after|
    requires forall i :: 0 <= i < |names| ==> NoComma(names[i]) && IsTrimmed(names[i])
    requires forall i :: 0 <= i < |names| ==> AllSpace(before[i]) && AllSpace(after[i])
    ensures var text := CommaSeparated(Join(Padded(names, before, after), ","));
      && Normalize(Config(Some(Plain(text)))) == Normalize(Config(Some(Plain(Listed(names)))))
      && Normalize(Config(Some(Keyed(Some(text), None)))) == Normalize(Config(Some(Keyed(Some(Listed(names)), None))))
      && Normalize(Config(Some(Keyed(None, Some(text))))) == Normalize(Config(Some(Keyed(None, Some(Listed(names))))))
    ensures var text := CommaSeparated(Join(Padded(names, before, after), ","));
      && Approved(Config(Some(Plain(text))), branch) == Approved(Config(Some(Plain(Listed(names)))), branch)
      && Approved(Config(Some(Keyed(Some(text), None))), branch) == Approved(Config(Some(Keyed(Some(Listed(names)), None))), branch)
      && Approved(Config(Some(Keyed(None, Some(text)))), branch) == Approved(Config(Some(Keyed(None, Some(Listed(names))))), branch)
  {
    NamesOfPadded(names, before, after);
  }

  /** A two-name list written `text` == 'a, b' reads as ['a', 'b']. */
  lemma ReadsAsPair(text: string, a: string, b: string)
    requires text == a + ", " + b
    requires NoComma(a) && IsTrimmed(a) && NoComma(b) && IsTrimmed(b)
    ensures Names(CommaSeparated(text)) == [a, b]
  {
    var names, before, after := [a, b], ["", " "], ["", ""];
    assert Join(Padded(names, before, after), ",") == text by {
      var parts := Padded(names, before, after);
      assert parts[0] == "" + a + "" == a;
      assert parts[1] == " " + b + "" == " " + b;
      assert parts == [a, " " + b];
      assert parts[1..] == [" " + b];
    }
    NamesOfPadded(names, before, after);
  }

  /** 'master, develop' reads as ['master', 'develop']. */
  lemma MasterDevelopReads()
    ensures Names(CommaSeparated("master, develop")) == ["master", "develop"]
  {
    ReadsAsPair("master, develop", "master", "develop");
  }

  /** 'github-pages, feature-*' reads as ['github-pages', 'feature-*']. */
  lemma PagesFeatureReads()
    ensures Names(CommaSeparated("github-pages, feature-*")) == ["github-pages", "feature-*"]
  {
    ReadsAsPair("github-pages, feature-*", "github-pages", "feature-*");
  }

  /** 'staging, feature-*' reads as ['staging', 'feature-*']. */
  lemma StagingFeatureReads()
    ensures Names(CommaSeparated("staging, feature-*")) == ["staging", "feature-*"]
  {
    ReadsAsPair("staging, feature-*", "staging", "feature-*");
  }

  /** `branches: 'master, develop'` approves branch 'master'. */
  lemma PlainStringApprovesListed()
    ensures Approved(Config(Some(Plain(CommaSeparated("master, develop")))), "master")
  {
    MasterDevelopReads();
    OnlyApprovesListed(CommaSeparated("master, develop"), None, "master");
  }

  /** `branches: 'master, develop'` rejects branch 'staging'. */
  lemma PlainStringRejectsUnlisted()
    ensures !Approved(Config(Some(Plain(CommaSeparated("master, develop")))), "staging")
  {
    MasterDevelopReads();
    OnlyApprovesListed(CommaSeparated("master, develop"), None, "staging");
  }

  /** `branches: {only: 'master, develop'}` approves branch 'master'. */
  lemma OnlyStringApprovesListed()
    ensures Approved(Config(Some(Keyed(Some(CommaSeparated("master, develop")), None))), "master")
  {
    MasterDevelopReads();
    OnlyApprovesListed(CommaSeparated("master, develop"), None, "master");
  }

  /** `branches: {only: 'master, develop'}` rejects branch 'staging'. */
  lemma OnlyStringRejectsUnlisted()
    ensures !Approved(Config(Some(Keyed(Some(CommaSeparated("master, develop")), None))), "staging")
  {
    MasterDevelopReads();
    OnlyApprovesListed(CommaSeparated("master, develop"), None, "staging");
  }

  /** `branches: {except: 'github-pages, feature-*'}` approves branch 'master'. */
  lemma ExceptStringApprovesUnlisted()
    ensures Approved(Config(Some(Keyed(None, Some(CommaSeparated("github-pages, feature-*"))))), "master")
  {
    PagesFeatureReads();
    ExceptApprovesUnlisted(CommaSeparated("github-pages, feature-*"), "master");
    assert "master" !in ["github-pages", "feature-*"] by {
      assert "master"[0] != "github-pages"[0] && "master"[0] != "feature-*"[0];
    }
  }

  /** `branches: {except: 'staging, feature-*'}` rejects branch 'staging'. */
  lemma ExceptStringRejectsListed()
    ensures !Approved(Config(Some(Keyed(None, Some(CommaSeparated("staging, feature-*"))))), "staging")
  {
    StagingFeatureReads();
    ExceptApprovesUnlisted(CommaSeparated("staging, feature-*"), "staging");
  }

  /** The same examples with the lists given as arrays. */
  lemma ArrayFormExamples()
    ensures Approved(Config(Some(Plain(Listed(["master", "develop"])))), "master")
    ensures !Approved(Config(Some(Plain(Listed(["master", "develop"])))), "staging")
    ensures Approved(Config(Some(Keyed(Some(Listed(["master", "develop"])), None))), "master")
    ensures !Approved(Config(Some(Keyed(Some(Listed(["master", "develop"])), None))), "staging")
    ensures Approved(Config(Some(Keyed(None, Some(Listed(["github-pages", "feature-*"]))))), "master")
    ensures !Approved(Config(Some(Keyed(None, Some(Listed(["staging", "feature-*"]))))), "staging")
  {
  }
}
