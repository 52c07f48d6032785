/** The practice pages' keyboard shortcuts (`src/hooks/use-keyboard-shortcuts.ts`): which
    callback, if any, a key press fires, given the page's flags. */
module Keyboard {
  import opened Entries
  import opened Text

  datatype Action = Next | ShowHint | PlaySound | ToggleSettings | ToggleHelp

  /** Where the key event lands: a text input, a text area, or anything else. */
  datatype Target = InputField | TextArea | Elsewhere

  /** The hook's options: which callbacks the page passed, and the flags (their defaults are
      "not started", "closed", "closed" and "enabled"). */
  datatype Config = Config(
    hasNext: bool, hasShowHint: bool, hasPlaySound: bool, hasToggleSettings: bool, hasToggleHelp: bool,
    started: bool, settingsOpen: bool, helpOpen: bool, enabled: bool)

  /** What the handler does with one event: whether it calls `preventDefault`, and which
      callback it fires. */
  datatype Reaction = Reaction(preventDefault: bool, fired: Option<Action>)

  const Ignored: Reaction := Reaction(false, None)

  function Fire(a: Action): Reaction
  {
    Reaction(true, Some(a))
  }

  /** The keys that advance the prompt (after lower-casing). */
  predicate IsNextKey(k: string)
  {
    k == " " || k == "arrowright" || k == "n"
  }

  predicate IsSoundKey(k: string)
  {
    k == "p" || k == "v"
  }

  /** The practice keys act only in a started session with both dialogs closed. */
  predicate PracticeOpen(cfg: Config)
  {
    cfg.started && !cfg.settingsOpen && !cfg.helpOpen
  }

  /** `handleKeyPress`, together with the `enabled` guard that decides whether it is installed. */
  function Dispatch(key: string, target: Target, cfg: Config): (r: Reaction)
    ensures r.preventDefault <==> r.fired.Some?
    ensures !cfg.enabled || target != Elsewhere ==> r == Ignored
    ensures r.fired == Some(ToggleSettings) <==>
      cfg.enabled && target == Elsewhere && ToLower(key) == "s" && !cfg.helpOpen && cfg.hasToggleSettings
    ensures r.fired == Some(ToggleHelp) <==>
      cfg.enabled && target == Elsewhere && ToLower(key) == "?" && !cfg.settingsOpen && cfg.hasToggleHelp
    ensures r.fired == Some(Next) <==>
      cfg.enabled && target == Elsewhere && IsNextKey(ToLower(key)) && PracticeOpen(cfg) && cfg.hasNext
    ensures r.fired == Some(ShowHint) <==>
      cfg.enabled && target == Elsewhere && ToLower(key) == "h" && PracticeOpen(cfg) && cfg.hasShowHint
    ensures r.fired == Some(PlaySound) <==>
      cfg.enabled && target == Elsewhere && IsSoundKey(ToLower(key)) && PracticeOpen(cfg) && cfg.hasPlaySound
  {
    if !cfg.enabled || target != Elsewhere then Ignored
    else
      var k := ToLower(key);
      if k == "s" then
        if !cfg.helpOpen && cfg.hasToggleSettings then Fire(ToggleSettings) else Ignored
      else if k == "?" then
        if !cfg.settingsOpen && cfg.hasToggleHelp then Fire(ToggleHelp) else Ignored
      else if PracticeOpen(cfg) then
        if IsNextKey(k) then (if cfg.hasNext then Fire(Next) else Ignored)
        else if k == "h" then (if cfg.hasShowHint then Fire(ShowHint) else Ignored)
        else if IsSoundKey(k) then (if cfg.hasPlaySound then Fire(PlaySound) else Ignored)
        else Ignored
      else Ignored
  }

  /** Keys are matched without regard to case: "S", "N", "H", "P", "V" act like "s", "n", "h",
      "p", "v". */
  lemma CaseInsensitive(key: string, target: Target, cfg: Config)
    ensures Dispatch(key, target, cfg) == Dispatch(ToLower(key), target, cfg)
  {
    ToLowerIdempotent(key);
  }

  /** "s" and "?" are global: they never reach the practice keys, whatever the flags. */
  lemma GlobalKeysNeverFallThrough(key: string, target: Target, cfg: Config)
    requires ToLower(key) == "s" || ToLower(key) == "?"
    ensures Dispatch(key, target, cfg).fired in {None, Some(ToggleSettings), Some(ToggleHelp)}
  {
  }

  /** An illustration, not a general property: "N" while the settings sheet is open does
      nothing. */
  lemma NextBlockedBySettings()
    ensures Dispatch("N", Elsewhere, Config(true, true, true, true, true, true, true, false, true)) == Ignored
  {
    assert ToLower("N") == "n";
  }
}
