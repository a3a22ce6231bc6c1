/**
 * The trip-settings dialog: the traveler list typed as comma-separated
 * names, the budget in KRW, the location, the field-by-field validation and
 * the saved settings with their default rate.
 */
module SettingsModal {
  import opened Wrappers
  import opened JsStrings
  import opened TripTypes
  import Exchange

  const NoTravelers: Text := "请至少输入1个旅行者姓名"
  const TooFewTravelers: Text := "旅行者至少需要2人"
  const EmptyName: Text := "姓名不能为空"
  const NoBudget: Text := "请输入总预算"
  const BudgetNotPositive: Text := "预算必须大于0"
  const NoLocation: Text := "请输入旅行地点"

  /** The rate saved when none is known (about 1 CNY for 189 KRW). */
  const DefaultRate: real := 0.0053

  /** The non-blank pieces, trimmed, in order (`map(trim).filter(length > 0)`). */
  function Names(pieces: seq<Text>): seq<Text>
  {
    if pieces == [] then []
    else (if IsBlank(pieces[0]) then [] else [Trim(pieces[0])]) + Names(pieces[1..])
  }

  /** The traveler names typed as `travelersStr`. */
  function ParseTravelers(s: Text): seq<Text>
  {
    Names(Split(s, ','))
  }

  /** The count shown under the field: pieces whose trim is non-empty. */
  function NonBlankCount(pieces: seq<Text>): nat
  {
    if pieces == [] then 0
    else (if IsBlank(pieces[0]) then 0 else 1) + NonBlankCount(pieces[1..])
  }

  /** A name as parsing produces it: non-empty, trimmed, without a comma. */
  predicate ParsedName(n: Text)
  {
    n != [] && Trim(n) == n && ',' !in n
  }

  /** Trimming only removes characters. */
  lemma TrimAddsNoCharacter(s: Text, c: char)
    requires c !in s
    ensures c !in Trim(s)
  {
    var a := TrimIsInnerSlice(s);
    forall j | 0 <= j < |Trim(s)|
      ensures Trim(s)[j] != c
    {
      assert Trim(s)[j] == s[a + j];
    }
  }

  lemma {:induction false} NamesFacts(pieces: seq<Text>)
    requires forall k :: 0 <= k < |pieces| ==> ',' !in pieces[k]
    ensures forall k :: 0 <= k < |Names(pieces)| ==> ParsedName(Names(pieces)[k])
    ensures |Names(pieces)| == NonBlankCount(pieces)
  {
    if pieces != [] {
      NamesFacts(pieces[1..]);
      if !IsBlank(pieces[0]) {
        TrimIdempotent(pieces[0]);
        TrimAddsNoCharacter(pieces[0], ',');
      }
    }
  }

  /** Every parsed name is non-empty, trimmed and free of commas, and the
    * hint under the field counts exactly the parsed names. */
  lemma ParsedNamesAreClean(s: Text)
    ensures forall k :: 0 <= k < |ParseTravelers(s)| ==> ParsedName(ParseTravelers(s)[k])
    ensures |ParseTravelers(s)| == NonBlankCount(Split(s, ','))
  {
    SplitPiecesHaveNoSeparator(s, ',');
    NamesFacts(Split(s, ','));
  }

  /** The empty-name check after parsing can never fire. */
  lemma EmptyNameNeverReported(s: Text)
    ensures !exists k :: 0 <= k < |ParseTravelers(s)| && ParseTravelers(s)[k] == []
  {
    ParsedNamesAreClean(s);
  }

  lemma {:induction false} ParseJoined(w: Text, names: seq<Text>)
    requires AllWhitespace(w) && ',' !in w
    requires forall k :: 0 <= k < |names| ==> ParsedName(names[k])
    ensures ParseTravelers(w + JoinWith(names, ", ")) == names
    decreases |names|
  {
    if names == [] {
      assert w + [] == w;
      SplitWithoutSeparator(w, ',');
      BlankIffAllWhitespace(w);
      assert Names([w]) == [];
    } else {
      var n := names[0];
      assert ParsedName(n);
      assert Trim(w + n + []) == Trim(n) by {
        TrimOfPadded(w, n, []);
      }
      assert w + n + [] == w + n;
      assert !IsBlank(w + n);
      if |names| == 1 {
        assert w + JoinWith(names, ", ") == w + n;
        SplitWithoutSeparator(w + n, ',');
        assert Names([w + n]) == [n];
      } else {
        var rest := JoinWith(names[1..], ", ");
        assert w + JoinWith(names, ", ") == (w + n) + [','] + (" " + rest);
        SplitAfterPiece(w + n, ',', " " + rest);
        ParseJoined(" ", names[1..]);
        var pieces := [w + n] + Split(" " + rest, ',');
        assert pieces[0] == w + n && pieces[1..] == Split(" " + rest, ',');
        assert Names(pieces) == [n] + names[1..];
      }
    }
  }

  /** Opening the dialog writes the travelers as `join(', ')`; parsing
    * that text gives back exactly the names, when each is one parsing
    * could have produced. */
  lemma JoinedNamesParseBack(names: seq<Text>)
    requires forall k :: 0 <= k < |names| ==> ParsedName(names[k])
    ensures ParseTravelers(JoinWith(names, ", ")) == names
  {
    assert [] + JoinWith(names, ", ") == JoinWith(names, ", ");
    ParseJoined([], names);
  }

  /** Hence parsing, joining and parsing again changes nothing. */
  lemma ReparseIsStable(s: Text)
    ensures ParseTravelers(JoinWith(ParseTravelers(s), ", ")) == ParseTravelers(s)
  {
    ParsedNamesAreClean(s);
    JoinedNamesParseBack(ParseTravelers(s));
  }

  /** The messages shown under the three fields; `None` for no error. */
  datatype SettingsErrors = SettingsErrors(travelers: Option<Text>, budget: Option<Text>, location: Option<Text>)

  function TravelersError(names: seq<Text>): Option<Text>
  {
    if |names| == 0 then Some(NoTravelers)
    else if |names| < 2 then Some(TooFewTravelers)
    else if exists k :: 0 <= k < |names| && names[k] == [] then Some(EmptyName)
    else None
  }

  /** `!totalBudget || isNaN(budget)`, then `budget <= 0`; `parse` is
    * `parseFloat`, `None` standing for NaN. */
  function BudgetError(budgetText: Text, parse: Text -> Option<real>): Option<Text>
  {
    if budgetText == [] || parse(budgetText).None? then Some(NoBudget)
    else if parse(budgetText).value <= 0.0 then Some(BudgetNotPositive)
    else None
  }

  function LocationError(location: Text): Option<Text>
  {
    if IsBlank(location) then Some(NoLocation) else None
  }

  /** The errors `validateForm` records for the three fields. */
  function FormErrors(travelersText: Text, budgetText: Text, location: Text, parse: Text -> Option<real>): SettingsErrors
  {
    SettingsErrors(TravelersError(ParseTravelers(travelersText)), BudgetError(budgetText, parse), LocationError(location))
  }

  predicate NoErrors(e: SettingsErrors)
  {
    e.travelers.None? && e.budget.None? && e.location.None?
  }

  /** The form passes exactly when at least two names are typed, the budget
    * parses to a positive number and the location is not blank; the
    * traveler message tells none from one. */
  lemma FormErrorsFacts(travelersText: Text, budgetText: Text, location: Text, parse: Text -> Option<real>)
    ensures var e := FormErrors(travelersText, budgetText, location, parse);
      && (NoErrors(e) <==>
            |ParseTravelers(travelersText)| >= 2
            && budgetText != [] && parse(budgetText).Some? && parse(budgetText).value > 0.0
            && !IsBlank(location))
      && (e.travelers == Some(NoTravelers) <==> |ParseTravelers(travelersText)| == 0)
      && (e.travelers == Some(TooFewTravelers) <==> |ParseTravelers(travelersText)| == 1)
      && e.travelers != Some(EmptyName)
      && (e.budget == Some(NoBudget) <==> budgetText == [] || parse(budgetText).None?)
      && (e.budget == Some(BudgetNotPositive) <==> budgetText != [] && parse(budgetText).Some? && parse(budgetText).value <= 0.0)
      && (e.location.Some? <==> IsBlank(location))
  {
    EmptyNameNeverReported(travelersText);
  }

  /** `currentRate || 0.0053`: no rate, or a zero rate, gives the default. */
  function RateOrDefault(rate: Option<real>): (r: real)
    ensures r != 0.0
    ensures rate.Some? && rate.value != 0.0 ==> r == rate.value
  {
    if rate.None? || rate.value == 0.0 then DefaultRate else rate.value
  }

  /** The settings `handleSave` passes to `onSave`, if the form is valid. */
  function SavedSettings(travelersText: Text, budgetText: Text, location: Text, rate: Option<real>,
                         parse: Text -> Option<real>): Option<TripSettings>
  {
    if !NoErrors(FormErrors(travelersText, budgetText, location, parse)) then None
    else Some(TripSettings(ParseTravelers(travelersText), parse(budgetText).value, RateOrDefault(rate), Trim(location)))
  }

  /** Settings as the dialog saves them: at least two clean names, a
    * positive budget, a non-zero rate and a trimmed, non-blank location. */
  predicate WellFormed(s: TripSettings)
  {
    && |s.travelers| >= 2
    && (forall k :: 0 <= k < |s.travelers| ==> ParsedName(s.travelers[k]))
    && s.totalBudget > 0.0 && s.currentRate != 0.0
    && s.location != [] && Trim(s.location) == s.location
  }

  /** Whatever the dialog saves is well formed. */
  lemma SavedSettingsAreWellFormed(travelersText: Text, budgetText: Text, location: Text, rate: Option<real>,
                                   parse: Text -> Option<real>)
    requires SavedSettings(travelersText, budgetText, location, rate, parse).Some?
    ensures WellFormed(SavedSettings(travelersText, budgetText, location, rate, parse).value)
  {
    ParsedNamesAreClean(travelersText);
    TrimIdempotent(location);
  }

  /** Reopening the dialog on well-formed settings and saving without an
    * edit saves the same settings, provided the budget's decimal text
    * (`show`, standing for `toString`) parses back to the budget. */
  lemma ReopenAndSaveKeepsSettings(s: TripSettings, show: real -> Text, parse: Text -> Option<real>)
    requires WellFormed(s)
    requires show(s.totalBudget) != [] && parse(show(s.totalBudget)) == Some(s.totalBudget)
    ensures SavedSettings(JoinWith(s.travelers, ", "), show(s.totalBudget), s.location, Some(s.currentRate), parse) == Some(s)
  {
    JoinedNamesParseBack(s.travelers);
    EmptyNameNeverReported(JoinWith(s.travelers, ", "));
  }

  /** What the dialog asks of its parent. */
  datatype Effect = Saved(settings: TripSettings) | Closed

  class SettingsForm {
    var travelersText: Text
    var budgetText: Text
    var location: Text
    var currentRate: Option<real>
    var errors: SettingsErrors
    /** The parent callbacks invoked so far, in order. */
    var effects: seq<Effect>

    /** The dialog opens on the current settings, the travelers joined by
      * ", " and the budget shown by `show`; without settings the fields
      * start empty and the rate is the exchange service's. */
    constructor (settings: Option<TripSettings>, exchange: Exchange.ExchangeRateService, show: real -> Text)
      ensures settings.Some? ==>
        && travelersText == JoinWith(settings.value.travelers, ", ")
        && budgetText == show(settings.value.totalBudget)
        && location == settings.value.location
        && currentRate == Some(settings.value.currentRate)
      ensures settings.None? ==> travelersText == [] && budgetText == [] && location == [] && currentRate == exchange.currentRate
      ensures errors == SettingsErrors(None, None, None) && effects == []
    {
      errors := SettingsErrors(None, None, None);
      effects := [];
      if settings.Some? {
        travelersText := JoinWith(settings.value.travelers, ", ");
        budgetText := show(settings.value.totalBudget);
        location := settings.value.location;
        currentRate := Some(settings.value.currentRate);
      } else {
        travelersText := [];
        budgetText := [];
        location := [];
        currentRate := exchange.currentRate;
      }
    }

    /** Typing in the traveler field clears its error. */
    method EditTravelers(value: Text)
      modifies this
      ensures travelersText == value && errors == old(errors).(travelers := None)
      ensures budgetText == old(budgetText) && location == old(location)
      ensures currentRate == old(currentRate) && effects == old(effects)
    {
      travelersText := value;
      errors := errors.(travelers := None);
    }

    method EditBudget(value: Text)
      modifies this
      ensures budgetText == value && errors == old(errors).(budget := None)
      ensures travelersText == old(travelersText) && location == old(location)
      ensures currentRate == old(currentRate) && effects == old(effects)
    {
      budgetText := value;
      errors := errors.(budget := None);
    }

    method EditLocation(value: Text)
      modifies this
      ensures location == value && errors == old(errors).(location := None)
      ensures travelersText == old(travelersText) && budgetText == old(budgetText)
      ensures currentRate == old(currentRate) && effects == old(effects)
    {
      location := value;
      errors := errors.(location := None);
    }

    /** `validateForm`: records the error of each field, replacing the old
      * ones, and reports whether there were none. */
    method ValidateForm(parse: Text -> Option<real>) returns (ok: bool)
      modifies this
      ensures errors == FormErrors(travelersText, budgetText, location, parse)
      ensures ok <==> NoErrors(errors)
      ensures travelersText == old(travelersText) && budgetText == old(budgetText) && location == old(location)
      ensures currentRate == old(currentRate) && effects == old(effects)
    {
      var newErrors := SettingsErrors(None, None, None);
      var travelers := ParseTravelers(travelersText);
      if |travelers| == 0 {
        newErrors := newErrors.(travelers := Some(NoTravelers));
      } else if |travelers| < 2 {
        newErrors := newErrors.(travelers := Some(TooFewTravelers));
      } else if exists k :: 0 <= k < |travelers| && travelers[k] == [] {
        newErrors := newErrors.(travelers := Some(EmptyName));
      }
      var budget := parse(budgetText);
      if budgetText == [] || budget.None? {
        newErrors := newErrors.(budget := Some(NoBudget));
      } else if budget.value <= 0.0 {
        newErrors := newErrors.(budget := Some(BudgetNotPositive));
      }
      if IsBlank(location) {
        newErrors := newErrors.(location := Some(NoLocation));
      }
      errors := newErrors;
      ok := newErrors.travelers.None? && newErrors.budget.None? && newErrors.location.None?;
    }

    /** `handleSave`: validates, and when the form passes hands the parsed
      * settings to `onSave` and then closes. */
    method HandleSave(parse: Text -> Option<real>)
      modifies this
      ensures errors == FormErrors(travelersText, budgetText, location, parse)
      ensures var saved := SavedSettings(travelersText, budgetText, location, currentRate, parse);
        effects == old(effects) + (if saved.Some? then [Saved(saved.value), Closed] else [])
      ensures travelersText == old(travelersText) && budgetText == old(budgetText) && location == old(location)
      ensures currentRate == old(currentRate)
    {
      var ok := ValidateForm(parse);
      if !ok {
        return;
      }
      var travelers := ParseTravelers(travelersText);
      var budget := parse(budgetText).value;
      var rate := RateOrDefault(currentRate);
      var newSettings := TripSettings(travelers, budget, rate, Trim(location));
      effects := effects + [Saved(newSettings)];
      effects := effects + [Closed];
    }
  }
}
