/**
  The console's command input (web/app/components/console/CommandInput.tsx):
  three state cells — the text typed, the highlighted suggestion and whether
  the suggestion list was dismissed — updated by the change, key, submit and
  click handlers. The suggestions themselves are derived from the text by a
  function the component is given (the suggestion hook).
*/
module CommandInput {
  import opened Wrappers
  import opened Strings

  datatype Key = ArrowDown | ArrowUp | Tab | Enter | Escape | OtherKey

  datatype InputState = InputState(input: string, index: int, hidden: bool)

  /** The memoised suggestions: none for blank text. */
  function SuggestionsFor(suggest: string -> seq<string>, input: string): seq<string> {
    if Trim(input) == [] then [] else suggest(input)
  }

  /** `showSuggestions`. */
  predicate Shown(s: InputState, suggestions: seq<string>) {
    |suggestions| > 0 && !s.hidden
  }

  /** `handleInputChange`. */
  function OnChange(s: InputState, value: string): InputState {
    InputState(value, -1, false)
  }

  /** `handleKeyDown`, for the suggestions shown with the current text. */
  function OnKey(s: InputState, key: Key, suggestions: seq<string>): InputState
    requires Shown(s, suggestions) && (key == Tab || key == Enter) ==> s.index < |suggestions|
  {
    if !Shown(s, suggestions) then s
    else match key
      case ArrowDown => s.(index := if s.index < |suggestions| - 1 then s.index + 1 else s.index)
      case ArrowUp => s.(index := if s.index > 0 then s.index - 1 else -1)
      case Tab => if s.index >= 0 then s.(input := suggestions[s.index], hidden := true) else s
      case Enter => if s.index >= 0 then s.(input := suggestions[s.index], hidden := true) else s
      case Escape => s.(hidden := true)
      case OtherKey => s
  }

  /** `handleSubmit`: the state afterwards and the command emitted, if any. */
  function OnSubmit(s: InputState, disabled: bool): (InputState, Option<string>) {
    if Trim(s.input) == [] || disabled then (s, None)
    else (s.(input := "", hidden := true), Some(Trim(s.input)))
  }

  /** `selectSuggestion`. */
  function OnSelect(s: InputState, suggestion: string): InputState {
    s.(input := suggestion, hidden := true)
  }

  /** The highlighted index is -1 or higher, and below the number of suggestions while they are shown. */
  predicate IndexInRange(s: InputState, suggest: string -> seq<string>) {
    s.index >= -1 && (Shown(s, SuggestionsFor(suggest, s.input)) ==> s.index < |SuggestionsFor(suggest, s.input)|)
  }

  /** While the list is not shown, no key changes anything. */
  lemma KeysIgnoredWhenNotShown(s: InputState, key: Key, suggestions: seq<string>)
    requires !Shown(s, suggestions)
    ensures OnKey(s, key, suggestions) == s
  {
  }

  /**
    ArrowDown moves the highlight down but not past the last suggestion;
    ArrowUp moves it up and yields -1 from 0 or -1; neither changes the
    text or dismisses the list.
  */
  lemma ArrowKeys(s: InputState, suggestions: seq<string>)
    requires Shown(s, suggestions) && -1 <= s.index < |suggestions|
    ensures var d := OnKey(s, ArrowDown, suggestions);
      d.input == s.input && !d.hidden && d.index <= |suggestions| - 1 &&
      d.index == (if s.index < |suggestions| - 1 then s.index + 1 else s.index)
    ensures var u := OnKey(s, ArrowUp, suggestions);
      u.input == s.input && !u.hidden && u.index >= -1 &&
      (s.index <= 0 ==> u.index == -1) && (s.index > 0 ==> u.index == s.index - 1)
  {
  }

  /**
    Tab and Enter take the highlighted suggestion as the text and dismiss
    the list; with nothing highlighted they do nothing. Escape only
    dismisses the list.
  */
  lemma AcceptAndDismiss(s: InputState, key: Key, suggestions: seq<string>)
    requires Shown(s, suggestions) && -1 <= s.index < |suggestions|
    ensures (key == Tab || key == Enter) && s.index >= 0 ==>
      OnKey(s, key, suggestions) == InputState(suggestions[s.index], s.index, true)
    ensures (key == Tab || key == Enter) && s.index == -1 ==> OnKey(s, key, suggestions) == s
    ensures OnKey(s, Escape, suggestions) == s.(hidden := true)
  {
  }

  /**
    Submitting blank text, or while disabled, does nothing; otherwise the
    trimmed text is emitted, the input cleared and the list dismissed.
  */
  lemma SubmitSpec(s: InputState, disabled: bool)
    ensures var (t, emitted) := OnSubmit(s, disabled);
      (AllSpace(s.input) || disabled ==> t == s && emitted.None?) &&
      (!AllSpace(s.input) && !disabled ==>
        emitted == Some(Trim(s.input)) && emitted.value != [] && t.input == "" && t.hidden && t.index == s.index)
  {
  }

  /** Changing the text resets the highlight, which is then in range. */
  lemma ChangeKeepsIndexInRange(s: InputState, suggest: string -> seq<string>, value: string)
    ensures IndexInRange(OnChange(s, value), suggest)
  {
  }

  /** Keys keep the highlighted index in range. */
  lemma KeyKeepsIndexInRange(s: InputState, suggest: string -> seq<string>, key: Key)
    requires IndexInRange(s, suggest)
    ensures IndexInRange(OnKey(s, key, SuggestionsFor(suggest, s.input)), suggest)
  {
    var sug := SuggestionsFor(suggest, s.input);
    var t := OnKey(s, key, sug);
    if Shown(s, sug) {
      if key == ArrowDown || key == ArrowUp {
        assert t.input == s.input && -1 <= t.index < |sug|;
        assert SuggestionsFor(suggest, t.input) == sug;
      } else if t != s {
        assert t.hidden && t.index == s.index;
      }
    }
  }

  /** Submitting keeps the highlighted index in range. */
  lemma SubmitKeepsIndexInRange(s: InputState, suggest: string -> seq<string>, disabled: bool)
    requires IndexInRange(s, suggest)
    ensures IndexInRange(OnSubmit(s, disabled).0, suggest)
  {
  }

  /** Clicking a suggestion keeps the highlighted index in range. */
  lemma SelectKeepsIndexInRange(s: InputState, suggest: string -> seq<string>, suggestion: string)
    requires IndexInRange(s, suggest)
    ensures IndexInRange(OnSelect(s, suggestion), suggest)
  {
  }

  class CommandInputState {
    var input: string
    var index: int
    var hidden: bool
    /** Derives the suggestions from the text, as the component's `useMemo` does. */
    const suggest: string -> seq<string>

    function State(): InputState
      reads this
    {
      InputState(input, index, hidden)
    }

    function Suggestions(): seq<string>
      reads this
    {
      SuggestionsFor(suggest, input)
    }

    predicate Valid()
      reads this
    {
      IndexInRange(State(), suggest)
    }

    constructor(suggest: string -> seq<string>)
      ensures State() == InputState("", -1, false) && this.suggest == suggest && Valid()
    {
      this.input := "";
      this.index := -1;
      this.hidden := false;
      this.suggest := suggest;
    }

    /** `handleInputChange`. */
    method HandleInputChange(value: string)
      requires Valid()
      modifies this
      ensures State() == OnChange(old(State()), value)
      ensures Valid()
    {
      input := value;
      index := -1;
      hidden := false;
    }

    /** `handleKeyDown`; reports whether the default action was prevented. */
    method HandleKeyDown(key: Key) returns (prevented: bool)
      requires Valid()
      modifies this
      ensures State() == OnKey(old(State()), key, old(Suggestions()))
      ensures Valid()
      ensures prevented <==> (Shown(old(State()), old(Suggestions())) &&
        (key == ArrowDown || key == ArrowUp || ((key == Tab || key == Enter) && old(index) >= 0)))
    {
      ghost var s0 := State();
      var suggestions := Suggestions();
      prevented := false;
      if !(|suggestions| > 0 && !hidden) {
        return;
      }
      var i, text, dismissed := index, input, hidden;
      if key == ArrowDown {
        prevented := true;
        i := if i < |suggestions| - 1 then i + 1 else i;
      } else if key == ArrowUp {
        prevented := true;
        i := if i > 0 then i - 1 else -1;
      } else if key == Tab || key == Enter {
        if i >= 0 {
          prevented := true;
          text := suggestions[i];
          dismissed := true;
        }
      } else if key == Escape {
        dismissed := true;
      }
      assert InputState(text, i, dismissed) == OnKey(s0, key, suggestions);
      KeyKeepsIndexInRange(s0, suggest, key);
      input, index, hidden := text, i, dismissed;
    }

    /** `handleSubmit`: the command recorded and passed to `onSubmit`, if any. */
    method HandleSubmit(disabled: bool) returns (emitted: Option<string>)
      requires Valid()
      modifies this
      ensures (State(), emitted) == OnSubmit(old(State()), disabled)
      ensures Valid()
    {
      ghost var s0 := State();
      var command := Trim(input);
      if command == [] || disabled {
        return None;
      }
      emitted := Some(command);
      input := "";
      hidden := true;
      assert (State(), emitted) == OnSubmit(s0, disabled);
    }

    /** `selectSuggestion`. */
    method SelectSuggestion(suggestion: string)
      requires Valid()
      modifies this
      ensures State() == OnSelect(old(State()), suggestion)
      ensures Valid()
    {
      input := suggestion;
      hidden := true;
    }
  }
}
