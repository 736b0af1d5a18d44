/** Title derivation (main.py:62-73, 153-182). Each template class may carry its
    own `guess_title`; a class without one inherits the nearest ancestor's, and
    `X2DataTemplate` carries the generic rule. The per-class rules are data
    here: a `Strategy` per class name, resolved along the ancestor chain. */
module Titles {
  import opened Text
  import opened Values

  /** The ways a title is derived from an instance's fields. */
  datatype Strategy =
    | FirstTruthy(names: seq<string>)          // guess_title
    | Attribute(name: string)                  // template.X
    | AttributeOr(first: string, second: string) // template.X or template.Y
    | Capitalized(name: string)                // X[:1].upper() + X[1:]
    | Suffixed(name: string, suffix: string)   // template.X + suffix
    | StrippedOf(name: string, trailing: char) // template.X.strip().rstrip(c)
    | SoldierClass                             // guess_soldier_class_title
    | JoinedRewards(name: string, rewardTitle: Strategy) // ", ".join of reward titles

  /** What a failing override raises: an `AttributeError` for a missing field, a
      `TypeError` for a field of the wrong type, a `KeyError` for a reward name
      that is not in the reward store. */
  datatype TitleError =
    | MissingAttribute(name: string)
    | WrongType(name: string)
    | MissingReward(key: string)

  datatype Result<T> = Ok(value: T) | Err(error: TitleError)

  /** `template.name`: raises when the instance has no such field. */
  function Attr(fields: seq<Field>, name: string): (r: Result<Value>)
    ensures r.Ok? <==> Lookup(fields, name).Some?
    ensures r.Ok? ==> r.value == Lookup(fields, name).value
    ensures r.Err? ==> r.error == MissingAttribute(name)
  {
    match Lookup(fields, name)
    case Some(v) => Ok(v)
    case None => Err(MissingAttribute(name))
  }

  /** `template.first or template.second`: the second field is read only when
      the first is falsy. */
  function AttrOr(fields: seq<Field>, first: string, second: string): (r: Result<Value>)
    ensures Lookup(fields, first).None? ==> r == Err(MissingAttribute(first))
    ensures Lookup(fields, first).Some? && Truthy(Lookup(fields, first).value) ==> r == Ok(Lookup(fields, first).value)
    ensures Lookup(fields, first).Some? && !Truthy(Lookup(fields, first).value) ==> r == Attr(fields, second)
  {
    match Attr(fields, first)
    case Err(e) => Err(e)
    case Ok(v) => if Truthy(v) then Ok(v) else Attr(fields, second)
  }

  /** `getattr(template, name, None)` is truthy. */
  predicate TruthyAttr(fields: seq<Field>, name: string) {
    Lookup(fields, name).Some? && Truthy(Lookup(fields, name).value)
  }

  /** The loop of `guess_title` (main.py:62-69): the first truthy attribute among
      `names`, or `None` when there is none. */
  function FirstTruthyOf(fields: seq<Field>, names: seq<string>): (r: Value)
    ensures r == Null || Truthy(r)
  {
    if names == [] then Null
    else if TruthyAttr(fields, names[0]) then Lookup(fields, names[0]).value
    else FirstTruthyOf(fields, names[1..])
  }

  /** `guess_title` returns the first truthy attribute in the list. */
  lemma {:induction false} FirstTruthyOfFound(fields: seq<Field>, names: seq<string>, k: nat)
    requires k < |names| && TruthyAttr(fields, names[k])
    requires forall j :: 0 <= j < k ==> !TruthyAttr(fields, names[j])
    ensures FirstTruthyOf(fields, names) == Lookup(fields, names[k]).value
    decreases k
  {
    if k > 0 {
      assert names[1..][k - 1] == names[k];
      FirstTruthyOfFound(fields, names[1..], k - 1);
    }
  }

  /** `guess_title` returns `None` when no attribute in the list is truthy. */
  lemma {:induction false} FirstTruthyOfNone(fields: seq<Field>, names: seq<string>)
    requires forall k :: 0 <= k < |names| ==> !TruthyAttr(fields, names[k])
    ensures FirstTruthyOf(fields, names) == Null
    decreases |names|
  {
    if names != [] {
      FirstTruthyOfNone(fields, names[1..]);
    }
  }

  const MultiplayerSuffix: string := " (Multiplayer)"

  /** Evaluates `template.guess_title()` for the strategy `st`. `rewards` is the
      instance store of `X2RewardTemplate`, keyed by case-folded name, which the
      point-of-interest rule looks titles up in. */
  function GuessTitle(st: Strategy, fields: seq<Field>, rewards: map<string, seq<Field>>): Result<Value>
    decreases st, 1, 0
  {
    match st
    case FirstTruthy(names) => Ok(FirstTruthyOf(fields, names))
    case Attribute(name) => Attr(fields, name)
    case AttributeOr(first, second) => AttrOr(fields, first, second)
    case Capitalized(name) =>
      (match Attr(fields, name)
       case Err(e) => Err(e)
       case Ok(v) => if v.Str? then Ok(Str(CapitalizeFirst(v.s))) else Err(WrongType(name)))
    case Suffixed(name, suffix) =>
      (match Attr(fields, name)
       case Err(e) => Err(e)
       case Ok(v) => if v.Str? then Ok(Str(v.s + suffix)) else Err(WrongType(name)))
    case StrippedOf(name, c) =>
      (match Attr(fields, name)
       case Err(e) => Err(e)
       case Ok(v) => if v.Str? then Ok(Str(RStripChar(Strip(v.s), c))) else Err(WrongType(name)))
    case SoldierClass =>
      (match AttrOr(fields, "DisplayName", "DataName")
       case Err(e) => Err(e)
       case Ok(name) =>
         (match Attr(fields, "bMultiplayerOnly")
          case Err(e) => Err(e)
          case Ok(mp) => Ok(Str(Show(name) + if Truthy(mp) then MultiplayerSuffix else ""))))
    case JoinedRewards(name, rewardTitle) =>
      (match Attr(fields, name)
       case Err(e) => Err(e)
       case Ok(v) =>
         if !v.List? then Err(WrongType(name))
         else
           (match RewardTitles(v.items, rewardTitle, rewards)
            case Err(e) => Err(e)
            case Ok(titles) =>
              if forall i :: 0 <= i < |titles| ==> titles[i].Str?
              then Ok(Str(Join(", ", Texts(titles))))
              else Err(WrongType(name))))
  }

  /** The texts of a list of string values. */
  function Texts(vs: seq<Value>): (r: seq<string>)
    requires forall i :: 0 <= i < |vs| ==> vs[i].Str?
    ensures |r| == |vs| && forall i :: 0 <= i < |vs| ==> vs[i] == Str(r[i])
  {
    seq(|vs|, i requires 0 <= i < |vs| => vs[i].s)
  }

  /** The instance has a string field `name`. */
  predicate StrAttr(fields: seq<Field>, name: string) {
    Lookup(fields, name).Some? && Lookup(fields, name).value.Str?
  }

  /** What each rule family promises: the generic rule never raises and yields
      `None` or a truthy value; a plain attribute rule reads `template.X`;
      every rule except the first three yields a string; the rules that work on
      the text of one field succeed exactly when that field is a string, and
      then the capitalising rule upper-cases only its first character, the
      multiplayer rule appends its suffix to it, and the strip rules keep a
      prefix of its stripped text, dropping only trailing copies of the
      stripped character. */
  lemma GuessTitleShape(st: Strategy, fields: seq<Field>, rewards: map<string, seq<Field>>)
    ensures var r := GuessTitle(st, fields, rewards);
      st.FirstTruthy? ==> r.Ok? && (r.value == Null || Truthy(r.value))
    ensures st.Attribute? ==> GuessTitle(st, fields, rewards) == Attr(fields, st.name)
    ensures var r := GuessTitle(st, fields, rewards);
      r.Ok? && !(st.FirstTruthy? || st.Attribute? || st.AttributeOr?) ==> r.value.Str?
    ensures (st.Capitalized? || st.Suffixed? || st.StrippedOf?) ==>
      (GuessTitle(st, fields, rewards).Ok? <==> StrAttr(fields, st.name))
    ensures var r := GuessTitle(st, fields, rewards);
      r.Ok? && st.Capitalized? ==>
        (Lookup(fields, st.name).Some? &&
         var t := r.value.s; var v := Lookup(fields, st.name).value;
         v.Str? && |t| == |v.s| && (t != [] ==> t[0] == UpperChar(v.s[0]) && t[1..] == v.s[1..]))
    ensures var r := GuessTitle(st, fields, rewards);
      r.Ok? && st.StrippedOf? ==>
        (StrAttr(fields, st.name) &&
         var t := r.value.s; var v := Strip(Lookup(fields, st.name).value.s);
         IsPrefix(t, v) && (forall i :: |t| <= i < |v| ==> v[i] == st.trailing) &&
         (t == [] || (t[|t| - 1] != st.trailing && !IsSpace(t[0]))))
    ensures var r := GuessTitle(st, fields, rewards);
      r.Ok? && st.Suffixed? ==>
        (StrAttr(fields, st.name) &&
         var t := r.value.s; var v := Lookup(fields, st.name).value.s;
         |t| == |v| + |st.suffix| && t[..|v|] == v && t[|v|..] == st.suffix)
  {
  }

  /** The list comprehension of the point-of-interest rule (main.py:171-176):
      every reward name is case-folded, looked up in the reward store and given
      the reward class's title. The first failure is the one raised. */
  function RewardTitles(names: seq<Value>, rewardTitle: Strategy, rewards: map<string, seq<Field>>)
    : (r: Result<seq<Value>>)
    ensures r.Ok? ==> |r.value| == |names|
    ensures r.Ok? ==> forall i :: 0 <= i < |names| ==>
      names[i].Str? && Lower(names[i].s) in rewards
      && GuessTitle(rewardTitle, rewards[Lower(names[i].s)], rewards) == Ok(r.value[i])
    decreases rewardTitle, 2, |names|
  {
    if names == [] then Ok([])
    else if !names[0].Str? then Err(WrongType("RewardTypes"))
    else
      var key := Lower(names[0].s);
      if key !in rewards then Err(MissingReward(key))
      else
        match GuessTitle(rewardTitle, rewards[key], rewards)
        case Err(e) => Err(e)
        case Ok(t) =>
          match RewardTitles(names[1..], rewardTitle, rewards)
          case Err(e) => Err(e)
          case Ok(ts) =>
            assert forall i :: 0 < i < |names| ==> names[i] == names[1..][i - 1];
            Ok([t] + ts)
  }

  /** The list comprehension fails exactly when some reward name is not a
      string, is missing from the reward store, or has a failing title. */
  lemma {:induction false} RewardTitlesOk(names: seq<Value>, rewardTitle: Strategy, rewards: map<string, seq<Field>>)
    ensures RewardTitles(names, rewardTitle, rewards).Ok? <==>
      forall i :: 0 <= i < |names| ==>
        names[i].Str? && Lower(names[i].s) in rewards
        && GuessTitle(rewardTitle, rewards[Lower(names[i].s)], rewards).Ok?
    decreases |names|
  {
    if names != [] {
      RewardTitlesOk(names[1..], rewardTitle, rewards);
      assert forall i :: 0 < i < |names| ==> names[i] == names[1..][i - 1];
    }
  }

  /** The attributes the generic rule tries, in order. */
  const GenericNames: seq<string> := ["DisplayName", "FriendlyName"]

  /** The generic rule installed on `X2DataTemplate` (main.py:153). */
  const DefaultStrategy: Strategy := FirstTruthy(GenericNames)

  /** A reward name that a join of generic reward titles can use: a string whose
      case fold names a reward whose generic title is a string. */
  predicate TitledReward(n: Value, rewards: map<string, seq<Field>>) {
    n.Str? && Lower(n.s) in rewards && FirstTruthyOf(rewards[Lower(n.s)], GenericNames).Str?
  }

  /** The generic titles of the rewards named in `names`, in order. */
  function GenericRewardTitles(names: seq<Value>, rewards: map<string, seq<Field>>): seq<string>
    requires forall i :: 0 <= i < |names| ==> TitledReward(names[i], rewards)
  {
    seq(|names|, i requires 0 <= i < |names| && TitledReward(names[i], rewards) =>
      FirstTruthyOf(rewards[Lower(names[i].s)], GenericNames).s)
  }

  /** A rule that joins the generic titles of the rewards listed in field
      `name`: it yields those titles joined by `", "` when the field is a list
      of names of rewards with string titles, and raises otherwise (a missing
      field, a field that is not a list, a name that is not a string or not in
      the store, or a title that is not a string, which `join` rejects). */
  lemma JoinedRewardsTitle(name: string, fields: seq<Field>, rewards: map<string, seq<Field>>)
    ensures var r := GuessTitle(JoinedRewards(name, DefaultStrategy), fields, rewards);
      var v := Lookup(fields, name);
      if v.Some? && v.value.List? && forall i :: 0 <= i < |v.value.items| ==> TitledReward(v.value.items[i], rewards)
      then r == Ok(Str(Join(", ", GenericRewardTitles(v.value.items, rewards))))
      else r.Err?
  {
    var v := Lookup(fields, name);
    if v.Some? && v.value.List? {
      GenericTitles(v.value.items, rewards);
    }
  }

  /** The generic titles of a list of reward names are all strings exactly when
      every name is a titled reward, and they are then `GenericRewardTitles`. */
  lemma GenericTitles(items: seq<Value>, rewards: map<string, seq<Field>>)
    ensures var rt := RewardTitles(items, DefaultStrategy, rewards);
      (rt.Ok? && forall i :: 0 <= i < |rt.value| ==> rt.value[i].Str?) <==>
      forall i :: 0 <= i < |items| ==> TitledReward(items[i], rewards)
    ensures var rt := RewardTitles(items, DefaultStrategy, rewards);
      (forall i :: 0 <= i < |items| ==> TitledReward(items[i], rewards)) ==>
      rt.Ok? && (forall i :: 0 <= i < |rt.value| ==> rt.value[i].Str?) &&
      Texts(rt.value) == GenericRewardTitles(items, rewards)
  {
    RewardTitlesOk(items, DefaultStrategy, rewards);
    var rt := RewardTitles(items, DefaultStrategy, rewards);
    if rt.Ok? {
      assert forall i :: 0 <= i < |items| ==>
        rt.value[i] == FirstTruthyOf(rewards[Lower(items[i].s)], GenericNames);
    }
  }

  /** The class attributes assigned in main.py:153-182, keyed by case-folded
      class name. `X2RewardTemplate` has no entry, so reward titles inside the
      point-of-interest rule use the generic rule (see `RewardsUseDefault`). */
  function Overrides(): map<string, Strategy> {
    map[
      "x2abilitypointtemplate" := Capitalized("ActionFriendlyName"),
      "x2abilitytemplate" := Attribute("LocFriendlyName"),
      "x2adventchosentemplate" := Attribute("ChosenTitleWithArticle"),
      "x2charactertemplate" := Attribute("strCharacterName"),
      "x2covertactiontemplate" := Attribute("ActionObjective"),
      "x2covertactionrisktemplate" := Attribute("RiskName"),
      "x2covertactionnarrativetemplate" := Attribute("ActionName"),
      "x2encyclopediatemplate" := AttributeOr("ListTitle", "DescriptionTitle"),
      "x2ladderupgradetemplate" := Attribute("ShortDescription"),
      "x2missionsourcetemplate" := AttributeOr("MissionPinLabel", "BattleOpName"),
      "x2objectivetemplate" := Attribute("Title"),
      "x2mpcharactertemplate" := Suffixed("DisplayName", MultiplayerSuffix),
      "x2resistancefactiontemplate" := Attribute("FactionTitle"),
      "x2resistanceactivitytemplate" := StrippedOf("DisplayName", ':'),
      "x2soldierclasstemplate" := SoldierClass,
      "x2specialroomfeaturetemplate" := Attribute("UnclearedDisplayName"),
      "x2staffslottemplate" := StrippedOf("BonusEmptyText", '.'),
      "x2traittemplate" := Attribute("TraitFriendlyName"),
      "x2pointofinteresttemplate" := JoinedRewards("RewardTypes", DefaultStrategy),
      "x2datatemplate" := DefaultStrategy
    ]
  }

  /** Python's attribute lookup of `guess_title` along the ancestor chain (most
      specific class first): the rule of the first class in the chain that has
      one of its own. */
  function Resolve(chain: seq<string>, table: map<string, Strategy>): Option<Strategy> {
    if chain == [] then None
    else if chain[0] in table then Some(table[chain[0]])
    else Resolve(chain[1..], table)
  }

  /** The rule found is that of the first class in the chain that has one. */
  lemma {:induction false} ResolveFirst(chain: seq<string>, table: map<string, Strategy>, k: nat)
    requires k < |chain| && chain[k] in table
    requires forall j :: 0 <= j < k ==> chain[j] !in table
    ensures Resolve(chain, table) == Some(table[chain[k]])
    decreases k
  {
    if k > 0 {
      assert chain[1..][k - 1] == chain[k];
      ResolveFirst(chain[1..], table, k - 1);
    }
  }

  /** The lookup finds no rule exactly when no class in the chain has one. */
  lemma {:induction false} ResolveNone(chain: seq<string>, table: map<string, Strategy>)
    ensures Resolve(chain, table) == None <==> forall k :: 0 <= k < |chain| ==> chain[k] !in table
    decreases |chain|
  {
    if chain != [] {
      ResolveNone(chain[1..], table);
      assert forall k :: 0 < k < |chain| ==> chain[k] == chain[1..][k - 1];
    }
  }

  /** A class whose chain reaches `x2datatemplate` before meeting any other
      class with a rule of its own uses the generic rule. This is the case of
      `X2RewardTemplate`, whose titles the point-of-interest rule joins. */
  lemma RewardsUseDefault(chain: seq<string>, k: nat)
    requires k < |chain| && chain[k] == "x2datatemplate"
    requires forall j :: 0 <= j < k ==> chain[j] !in Overrides()
    ensures Resolve(chain, Overrides()) == Some(DefaultStrategy)
  {
    DataTemplateRule();
    ResolveFirst(chain, Overrides(), k);
  }

  /** The root template class carries the generic rule. */
  lemma DataTemplateRule()
    ensures "x2datatemplate" in Overrides()
    ensures Overrides()["x2datatemplate"] == DefaultStrategy
  {
  }

  /** The point-of-interest entry of the rule table. */
  lemma PointOfInterestEntry()
    ensures "x2pointofinteresttemplate" in Overrides()
    ensures Overrides()["x2pointofinteresttemplate"] == JoinedRewards("RewardTypes", DefaultStrategy)
  {
  }

  /** The point-of-interest rule joins the generic titles of the rewards listed
      in `RewardTypes` with `", "`, and raises when one of them cannot be
      titled that way. */
  lemma PointOfInterestRule(fields: seq<Field>, rewards: map<string, seq<Field>>)
    ensures "x2pointofinteresttemplate" in Overrides()
    ensures var r := GuessTitle(Overrides()["x2pointofinteresttemplate"], fields, rewards);
      var v := Lookup(fields, "RewardTypes");
      if v.Some? && v.value.List? && forall i :: 0 <= i < |v.value.items| ==> TitledReward(v.value.items[i], rewards)
      then r == Ok(Str(Join(", ", GenericRewardTitles(v.value.items, rewards))))
      else r.Err?
  {
    PointOfInterestEntry();
    JoinedRewardsTitle("RewardTypes", fields, rewards);
  }

  /** The title written on an instance page (main.py:130): the resolved rule's
      result when it is truthy, else the instance's own name. A failing rule
      aborts the page. */
  function PageTitle(chain: seq<string>, entry: Entry, table: map<string, Strategy>,
                     rewards: map<string, seq<Field>>): Result<string>
  {
    match Resolve(chain, table)
    case None => Err(MissingAttribute("guess_title"))
    case Some(st) =>
      match GuessTitle(st, entry.fields, rewards)
      case Err(e) => Err(e)
      case Ok(v) => Ok(if Truthy(v) then Show(v) else entry.dataname)
  }

  /** A title rule that yields a falsy value (`None`, an empty string, ...)
      gives the page the instance's name; a truthy value is printed. */
  lemma PageTitleFallback(chain: seq<string>, entry: Entry, table: map<string, Strategy>,
                          rewards: map<string, seq<Field>>, v: Value)
    requires Resolve(chain, table).Some?
    requires GuessTitle(Resolve(chain, table).value, entry.fields, rewards) == Ok(v)
    ensures !Truthy(v) ==> PageTitle(chain, entry, table, rewards) == Ok(entry.dataname)
    ensures Truthy(v) ==> PageTitle(chain, entry, table, rewards) == Ok(Show(v))
  {
  }

  /** A truthy value never prints as the empty string. */
  lemma {:induction false} ShowTruthyNonEmpty(v: Value)
    requires Truthy(v)
    ensures Show(v) != []
  {
    match v
    case Int(i) => assert |IntToString(i)| > 0;
    case _ =>
  }

  /** A page title is empty only when the instance name is. */
  lemma PageTitleNonEmpty(chain: seq<string>, entry: Entry, table: map<string, Strategy>,
                          rewards: map<string, seq<Field>>)
    requires entry.dataname != []
    requires PageTitle(chain, entry, table, rewards).Ok?
    ensures PageTitle(chain, entry, table, rewards).value != []
  {
    var v := GuessTitle(Resolve(chain, table).value, entry.fields, rewards).value;
    if Truthy(v) {
      ShowTruthyNonEmpty(v);
    }
  }

  /** The generic rule on an instance page: `DisplayName` if truthy, else
      `FriendlyName` if truthy, else the instance's name. */
  lemma DefaultPageTitle(chain: seq<string>, entry: Entry, table: map<string, Strategy>,
                         rewards: map<string, seq<Field>>)
    requires Resolve(chain, table) == Some(DefaultStrategy)
    ensures PageTitle(chain, entry, table, rewards) == Ok(
      if TruthyAttr(entry.fields, "DisplayName") then Show(Lookup(entry.fields, "DisplayName").value)
      else if TruthyAttr(entry.fields, "FriendlyName") then Show(Lookup(entry.fields, "FriendlyName").value)
      else entry.dataname)
  {
    var names := GenericNames;
    if TruthyAttr(entry.fields, names[0]) {
      FirstTruthyOfFound(entry.fields, names, 0);
    } else if TruthyAttr(entry.fields, names[1]) {
      FirstTruthyOfFound(entry.fields, names, 1);
    } else {
      FirstTruthyOfNone(entry.fields, names);
    }
  }
}
