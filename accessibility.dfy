/**
 * The accessibility settings store of lib/accessibility-context.tsx: a flat
 * record of fourteen preferences, a single-field update, a reset to the
 * defaults, and the function that reflects the settings onto the document
 * root (its font size and its list of CSS classes).
 */
module Accessibility {

  /** The interface language; `Translation.LanguageCode` gives the code the translation hook reads. */
  datatype Language = En | Ur
  datatype FontSize = Small | Medium | Large | ExtraLarge
  /** `NoFilter` is the source's 'none'. */
  datatype ColorBlindMode = NoFilter | Protanopia | Deuteranopia | Tritanopia

  datatype Settings = Settings(
    language: Language,
    fontSize: FontSize,
    highContrast: bool,
    reducedMotion: bool,
    textSpacing: bool,
    readableFont: bool,
    linkHighlight: bool,
    colorBlindMode: ColorBlindMode,
    largeTextMode: bool,
    largeButtonMode: bool,
    readingMode: bool,
    audioAssistance: bool,
    pictorialMenu: bool,
    focusIndicator: bool)

  /** The names of the record's fields, `keyof AccessibilitySettings`. */
  datatype SettingKey =
    | LanguageKey | FontSizeKey | HighContrastKey | ReducedMotionKey | TextSpacingKey
    | ReadableFontKey | LinkHighlightKey | ColorBlindModeKey | LargeTextModeKey
    | LargeButtonModeKey | ReadingModeKey | AudioAssistanceKey | PictorialMenuKey
    | FocusIndicatorKey

  /** A value of one of the record's field types. */
  datatype SettingValue =
    | LanguageValue(language: Language)
    | FontSizeValue(size: FontSize)
    | Flag(on: bool)
    | ColorBlindValue(mode: ColorBlindMode)

  /** The eleven keys whose field is a boolean. */
  const BooleanKeys: set<SettingKey> := {
    HighContrastKey, ReducedMotionKey, TextSpacingKey, ReadableFontKey, LinkHighlightKey,
    LargeTextModeKey, LargeButtonModeKey, ReadingModeKey, AudioAssistanceKey,
    PictorialMenuKey, FocusIndicatorKey }

  /** `AccessibilitySettings[K]`: the value has the type of field `k`. */
  predicate Fits(k: SettingKey, v: SettingValue)
  {
    match k
    case LanguageKey => v.LanguageValue?
    case FontSizeKey => v.FontSizeValue?
    case ColorBlindModeKey => v.ColorBlindValue?
    case _ => v.Flag?
  }

  /** `settings[k]`. */
  function Get(s: Settings, k: SettingKey): (v: SettingValue)
    ensures Fits(k, v)
  {
    match k
    case LanguageKey => LanguageValue(s.language)
    case FontSizeKey => FontSizeValue(s.fontSize)
    case HighContrastKey => Flag(s.highContrast)
    case ReducedMotionKey => Flag(s.reducedMotion)
    case TextSpacingKey => Flag(s.textSpacing)
    case ReadableFontKey => Flag(s.readableFont)
    case LinkHighlightKey => Flag(s.linkHighlight)
    case ColorBlindModeKey => ColorBlindValue(s.colorBlindMode)
    case LargeTextModeKey => Flag(s.largeTextMode)
    case LargeButtonModeKey => Flag(s.largeButtonMode)
    case ReadingModeKey => Flag(s.readingMode)
    case AudioAssistanceKey => Flag(s.audioAssistance)
    case PictorialMenuKey => Flag(s.pictorialMenu)
    case FocusIndicatorKey => Flag(s.focusIndicator)
  }

  /** Two records with the same value under every key are the same record. */
  lemma SameFieldsSameSettings(a: Settings, b: Settings)
    requires forall k :: Get(a, k) == Get(b, k)
    ensures a == b
  {
    assert Get(a, LanguageKey) == Get(b, LanguageKey);
    assert Get(a, FontSizeKey) == Get(b, FontSizeKey);
    assert Get(a, HighContrastKey) == Get(b, HighContrastKey);
    assert Get(a, ReducedMotionKey) == Get(b, ReducedMotionKey);
    assert Get(a, TextSpacingKey) == Get(b, TextSpacingKey);
    assert Get(a, ReadableFontKey) == Get(b, ReadableFontKey);
    assert Get(a, LinkHighlightKey) == Get(b, LinkHighlightKey);
    assert Get(a, ColorBlindModeKey) == Get(b, ColorBlindModeKey);
    assert Get(a, LargeTextModeKey) == Get(b, LargeTextModeKey);
    assert Get(a, LargeButtonModeKey) == Get(b, LargeButtonModeKey);
    assert Get(a, ReadingModeKey) == Get(b, ReadingModeKey);
    assert Get(a, AudioAssistanceKey) == Get(b, AudioAssistanceKey);
    assert Get(a, PictorialMenuKey) == Get(b, PictorialMenuKey);
    assert Get(a, FocusIndicatorKey) == Get(b, FocusIndicatorKey);
  }

  /** `defaultSettings`. */
  const Default := Settings(
    language := En, fontSize := Medium,
    highContrast := false, reducedMotion := false, textSpacing := false,
    readableFont := false, linkHighlight := false, colorBlindMode := NoFilter,
    largeTextMode := false, largeButtonMode := false, readingMode := false,
    audioAssistance := false, pictorialMenu := false, focusIndicator := false)

  /** The defaults: English, medium text, no colour filter, and every boolean preference off. */
  lemma DefaultValues()
    ensures Get(Default, LanguageKey) == LanguageValue(En)
    ensures Get(Default, FontSizeKey) == FontSizeValue(Medium)
    ensures Get(Default, ColorBlindModeKey) == ColorBlindValue(NoFilter)
    ensures forall k :: k in BooleanKeys ==> Get(Default, k) == Flag(false)
  {
  }

  /** `updateSetting(key, value)`: `{ ...prev, [key]: value }`. */
  function Update(s: Settings, k: SettingKey, v: SettingValue): (r: Settings)
    requires Fits(k, v)
    ensures Get(r, k) == v
  {
    match k
    case LanguageKey => s.(language := v.language)
    case FontSizeKey => s.(fontSize := v.size)
    case HighContrastKey => s.(highContrast := v.on)
    case ReducedMotionKey => s.(reducedMotion := v.on)
    case TextSpacingKey => s.(textSpacing := v.on)
    case ReadableFontKey => s.(readableFont := v.on)
    case LinkHighlightKey => s.(linkHighlight := v.on)
    case ColorBlindModeKey => s.(colorBlindMode := v.mode)
    case LargeTextModeKey => s.(largeTextMode := v.on)
    case LargeButtonModeKey => s.(largeButtonMode := v.on)
    case ReadingModeKey => s.(readingMode := v.on)
    case AudioAssistanceKey => s.(audioAssistance := v.on)
    case PictorialMenuKey => s.(pictorialMenu := v.on)
    case FocusIndicatorKey => s.(focusIndicator := v.on)
  }

  /** Every field other than the updated one keeps its previous value. */
  lemma UpdateOthers(s: Settings, k: SettingKey, v: SettingValue, j: SettingKey)
    requires Fits(k, v) && j != k
    ensures Get(Update(s, k, v), j) == Get(s, j)
  {
  }

  /** Setting a field to the value it already has changes nothing. */
  lemma UpdateSameValue(s: Settings, k: SettingKey)
    ensures Update(s, k, Get(s, k)) == s
  {
    match k
    case LanguageKey =>
    case FontSizeKey =>
    case HighContrastKey =>
    case ReducedMotionKey =>
    case TextSpacingKey =>
    case ReadableFontKey =>
    case LinkHighlightKey =>
    case ColorBlindModeKey =>
    case LargeTextModeKey =>
    case LargeButtonModeKey =>
    case ReadingModeKey =>
    case AudioAssistanceKey =>
    case PictorialMenuKey =>
    case FocusIndicatorKey =>
  }

  /** A second update of the same field overrides the first. */
  lemma UpdateTwice(s: Settings, k: SettingKey, v: SettingValue, w: SettingValue)
    requires Fits(k, v) && Fits(k, w)
    ensures Update(Update(s, k, v), k, w) == Update(s, k, w)
  {
    match k
    case LanguageKey =>
    case FontSizeKey =>
    case HighContrastKey =>
    case ReducedMotionKey =>
    case TextSpacingKey =>
    case ReadableFontKey =>
    case LinkHighlightKey =>
    case ColorBlindModeKey =>
    case LargeTextModeKey =>
    case LargeButtonModeKey =>
    case ReadingModeKey =>
    case AudioAssistanceKey =>
    case PictorialMenuKey =>
    case FocusIndicatorKey =>
  }

  /** `resetSettings()`: the previous record is dropped. */
  function Reset(s: Settings): (r: Settings)
    ensures forall k :: Get(r, k) == Get(Default, k)
  {
    Default
  }

  /** Resetting twice is resetting once, and a reset forgets every earlier update. */
  lemma ResetIdempotent(s: Settings, k: SettingKey, v: SettingValue)
    requires Fits(k, v)
    ensures Reset(Reset(s)) == Reset(s)
    ensures Reset(Update(s, k, v)) == Reset(s)
  {
  }

  // ---------------------------------------------------------------------
  // applyAccessibilitySettings
  // ---------------------------------------------------------------------

  /** `fontSizeMap`, in pixels. */
  function FontPx(size: FontSize): (px: nat)
    ensures px == 14 + 2 * Rank(size)
  {
    match size
    case Small => 14
    case Medium => 16
    case Large => 18
    case ExtraLarge => 20
  }

  /** Position of a size in the order small < medium < large < extra-large. */
  function Rank(size: FontSize): nat
  {
    match size
    case Small => 0
    case Medium => 1
    case Large => 2
    case ExtraLarge => 3
  }

  /** The pixel size grows strictly with the size order, in steps of 2px from 14px. */
  lemma FontPxIncreasing(a: FontSize, b: FontSize)
    ensures Rank(a) < Rank(b) <==> FontPx(a) < FontPx(b)
    ensures FontPx(a) == 14 + 2 * Rank(a)
  {
  }

  /**
   * A class on the document root.  The fourteen classes this code manages
   * are constructors of their own; every other class is `Other(name)`.
   */
  datatype CssClass =
    | HighContrastClass | ReducedMotionClass | TextSpacingClass | ReadableFontClass
    | LinkHighlightClass | ProtanopiaClass | DeuteranopiaClass | TritanopiaClass
    | LargeTextModeClass | LargeButtonModeClass | ReadingModeClass | AudioAssistanceClass
    | PictorialMenuClass | FocusIndicatorClass
    | Other(name: string)

  /** The class name as it appears in `classList`. */
  function Name(c: CssClass): string
  {
    match c
    case HighContrastClass => "high-contrast"
    case ReducedMotionClass => "reduced-motion"
    case TextSpacingClass => "text-spacing"
    case ReadableFontClass => "readable-font"
    case LinkHighlightClass => "link-highlight"
    case ProtanopiaClass => "protanopia"
    case DeuteranopiaClass => "deuteranopia"
    case TritanopiaClass => "tritanopia"
    case LargeTextModeClass => "large-text-mode"
    case LargeButtonModeClass => "large-button-mode"
    case ReadingModeClass => "reading-mode"
    case AudioAssistanceClass => "audio-assistance"
    case PictorialMenuClass => "pictorial-menu"
    case FocusIndicatorClass => "focus-indicator"
    case Other(n) => n
  }

  /** The three colour-filter classes, removed together before one is added. */
  const ColorClasses: set<CssClass> := {ProtanopiaClass, DeuteranopiaClass, TritanopiaClass}

  /** Every class the function adds or removes. */
  const ManagedClasses: set<CssClass> := {
    HighContrastClass, ReducedMotionClass, TextSpacingClass, ReadableFontClass,
    LinkHighlightClass, ProtanopiaClass, DeuteranopiaClass, TritanopiaClass,
    LargeTextModeClass, LargeButtonModeClass, ReadingModeClass, AudioAssistanceClass,
    PictorialMenuClass, FocusIndicatorClass }

  /** The token for a class name read from `classList`. */
  function ClassOf(n: string): CssClass
  {
    if n == "high-contrast" then HighContrastClass
    else if n == "reduced-motion" then ReducedMotionClass
    else if n == "text-spacing" then TextSpacingClass
    else if n == "readable-font" then ReadableFontClass
    else if n == "link-highlight" then LinkHighlightClass
    else if n == "protanopia" then ProtanopiaClass
    else if n == "deuteranopia" then DeuteranopiaClass
    else if n == "tritanopia" then TritanopiaClass
    else if n == "large-text-mode" then LargeTextModeClass
    else if n == "large-button-mode" then LargeButtonModeClass
    else if n == "reading-mode" then ReadingModeClass
    else if n == "audio-assistance" then AudioAssistanceClass
    else if n == "pictorial-menu" then PictorialMenuClass
    else if n == "focus-indicator" then FocusIndicatorClass
    else Other(n)
  }

  /** Reading a name and writing it back gives the same name. */
  lemma NameOfClassOf(n: string)
    ensures Name(ClassOf(n)) == n
  {
  }

  /** Every managed class is read back from its own name, so distinct managed classes have distinct names. */
  lemma ClassOfName(c: CssClass)
    requires c in ManagedClasses
    ensures ClassOf(Name(c)) == c
  {
    match c
    case HighContrastClass =>
    case ReducedMotionClass =>
    case TextSpacingClass =>
    case ReadableFontClass =>
    case LinkHighlightClass =>
    case ProtanopiaClass =>
    case DeuteranopiaClass =>
    case TritanopiaClass =>
    case LargeTextModeClass =>
    case LargeButtonModeClass =>
    case ReadingModeClass =>
    case AudioAssistanceClass =>
    case PictorialMenuClass =>
    case FocusIndicatorClass =>
    case Other(_) => assert false;
  }

  /** No two tokens of a class list stand for the same name. */
  ghost predicate Canonical(cs: set<CssClass>)
  {
    forall c :: c in cs && c.Other? ==> forall m :: m in ManagedClasses ==> Name(m) != c.name
  }

  /** On a canonical class list, `ClassOf` inverts `Name` for every token. */
  lemma CanonicalRoundTrip(cs: set<CssClass>, c: CssClass)
    requires Canonical(cs) && c in cs
    ensures ClassOf(Name(c)) == c
  {
    if c.Other? {
      assert Name(HighContrastClass) != c.name && Name(ReducedMotionClass) != c.name;
      assert Name(TextSpacingClass) != c.name && Name(ReadableFontClass) != c.name;
      assert Name(LinkHighlightClass) != c.name && Name(ProtanopiaClass) != c.name;
      assert Name(DeuteranopiaClass) != c.name && Name(TritanopiaClass) != c.name;
      assert Name(LargeTextModeClass) != c.name && Name(LargeButtonModeClass) != c.name;
      assert Name(ReadingModeClass) != c.name && Name(AudioAssistanceClass) != c.name;
      assert Name(PictorialMenuClass) != c.name && Name(FocusIndicatorClass) != c.name;
    }
  }

  /** A name read as `Other` is none of the managed names. */
  lemma ClassOfOther(n: string)
    ensures ClassOf(n).Other? ==> forall m :: m in ManagedClasses ==> Name(m) != n
  {
    forall m | m in ManagedClasses && Name(m) == n ensures !ClassOf(n).Other? {
      ClassOfName(m);
    }
  }

  /** The class each boolean preference toggles on the root element. */
  function FlagClass(k: SettingKey): (c: CssClass)
    requires k in BooleanKeys
    ensures c in ManagedClasses - ColorClasses
  {
    match k
    case HighContrastKey => HighContrastClass
    case ReducedMotionKey => ReducedMotionClass
    case TextSpacingKey => TextSpacingClass
    case ReadableFontKey => ReadableFontClass
    case LinkHighlightKey => LinkHighlightClass
    case LargeTextModeKey => LargeTextModeClass
    case LargeButtonModeKey => LargeButtonModeClass
    case ReadingModeKey => ReadingModeClass
    case AudioAssistanceKey => AudioAssistanceClass
    case PictorialMenuKey => PictorialMenuClass
    case FocusIndicatorKey => FocusIndicatorClass
  }

  /** The class added for a colour-blind mode: the source adds the mode's own name. */
  function ModeClass(mode: ColorBlindMode): (c: CssClass)
    requires mode != NoFilter
    ensures c in ColorClasses
  {
    match mode
    case Protanopia => ProtanopiaClass
    case Deuteranopia => DeuteranopiaClass
    case Tritanopia => TritanopiaClass
  }

  /** The mode's value as stored in the settings: 'none', 'protanopia', ... */
  function ModeName(mode: ColorBlindMode): string
  {
    match mode
    case NoFilter => "none"
    case Protanopia => "protanopia"
    case Deuteranopia => "deuteranopia"
    case Tritanopia => "tritanopia"
  }

  /** The class added for a mode carries exactly the mode's name. */
  lemma ModeClassName(mode: ColorBlindMode)
    requires mode != NoFilter
    ensures Name(ModeClass(mode)) == ModeName(mode)
  {
  }

  /** Whether the settings ask for the managed class `c`. */
  predicate Wants(s: Settings, c: CssClass)
  {
    match c
    case HighContrastClass => s.highContrast
    case ReducedMotionClass => s.reducedMotion
    case TextSpacingClass => s.textSpacing
    case ReadableFontClass => s.readableFont
    case LinkHighlightClass => s.linkHighlight
    case ProtanopiaClass => s.colorBlindMode == Protanopia
    case DeuteranopiaClass => s.colorBlindMode == Deuteranopia
    case TritanopiaClass => s.colorBlindMode == Tritanopia
    case LargeTextModeClass => s.largeTextMode
    case LargeButtonModeClass => s.largeButtonMode
    case ReadingModeClass => s.readingMode
    case AudioAssistanceClass => s.audioAssistance
    case PictorialMenuClass => s.pictorialMenu
    case FocusIndicatorClass => s.focusIndicator
    case Other(_) => false
  }

  /** The managed classes the settings ask for. */
  function Requested(s: Settings): set<CssClass>
  {
    set c | c in ManagedClasses && Wants(s, c)
  }

  /** The class set after applying `s` to a root whose classes were `before`. */
  function Applied(before: set<CssClass>, s: Settings): (after: set<CssClass>)
    ensures after - ManagedClasses == before - ManagedClasses
    ensures after * ManagedClasses == Requested(s)
  {
    (before - ManagedClasses) + Requested(s)
  }

  /** Distinct boolean preferences toggle distinct classes. */
  lemma FlagClassInjective(k: SettingKey, j: SettingKey)
    requires k in BooleanKeys && j in BooleanKeys
    ensures FlagClass(k) == FlagClass(j) <==> k == j
  {
  }

  /** A boolean preference's class is present after applying exactly when the preference is on. */
  lemma FlagClassIff(before: set<CssClass>, s: Settings, k: SettingKey)
    requires k in BooleanKeys
    ensures FlagClass(k) in Applied(before, s) <==> Get(s, k) == Flag(true)
  {
  }

  /** The colour classes present: none for 'none', otherwise exactly the mode's own class. */
  lemma ColorClassExclusive(before: set<CssClass>, s: Settings)
    ensures Applied(before, s) * ColorClasses ==
      if s.colorBlindMode == NoFilter then {} else {ModeClass(s.colorBlindMode)}
  {
  }

  /** Classes outside the managed list are neither added nor removed. */
  lemma UnmanagedPreserved(before: set<CssClass>, s: Settings, c: CssClass)
    requires c !in ManagedClasses
    ensures c in Applied(before, s) <==> c in before
  {
  }

  /** Applying keeps the class list free of two tokens for one name. */
  lemma AppliedCanonical(before: set<CssClass>, s: Settings)
    requires Canonical(before)
    ensures Canonical(Applied(before, s))
  {
  }

  /** Applying the same settings twice gives the classes of applying once. */
  lemma AppliedIdempotent(before: set<CssClass>, s: Settings)
    ensures Applied(Applied(before, s), s) == Applied(before, s)
  {
  }

  /** The defaults give 16px and none of the managed classes. */
  lemma AppliedDefault(before: set<CssClass>)
    ensures FontPx(Default.fontSize) == 16
    ensures Applied(before, Default) == before - ManagedClasses
  {
  }

  /** `classList.add(c)` when `on`, `classList.remove(c)` otherwise. */
  function ToggleClass(cs: set<CssClass>, c: CssClass, on: bool): set<CssClass>
  {
    if on then cs + {c} else cs - {c}
  }

  /**
   * The classes once the add/remove steps for the managed classes in `done`
   * have run: those are present exactly when the settings want them, and
   * every other class is as it was.
   */
  ghost function AppliedTo(before: set<CssClass>, s: Settings, done: set<CssClass>): set<CssClass>
  {
    (before - done) + Requested(s) * done
  }

  /** One `add`/`remove` step of a boolean preference's class. */
  lemma FlagStep(before: set<CssClass>, s: Settings, done: set<CssClass>, c: CssClass)
    ensures ToggleClass(AppliedTo(before, s, done), c, Wants(s, c)) == AppliedTo(before, s, done + {c})
  {
  }

  /** The colour step: all three mode classes removed, then the selected one added. */
  lemma ColorStep(before: set<CssClass>, s: Settings, done: set<CssClass>)
    ensures
      var cleared := AppliedTo(before, s, done) - ColorClasses;
      (if s.colorBlindMode != NoFilter then cleared + {ModeClass(s.colorBlindMode)} else cleared)
        == AppliedTo(before, s, done + ColorClasses)
  {
  }

  /** The first five add/remove calls and the colour step of the source. */
  ghost function FirstSteps(before: set<CssClass>, s: Settings): set<CssClass>
  {
    var x0 := ToggleClass(before, HighContrastClass, s.highContrast);
    var x1 := ToggleClass(x0, ReducedMotionClass, s.reducedMotion);
    var x2 := ToggleClass(x1, TextSpacingClass, s.textSpacing);
    var x3 := ToggleClass(x2, ReadableFontClass, s.readableFont);
    var x4 := ToggleClass(x3, LinkHighlightClass, s.linkHighlight);
    var cleared := x4 - ColorClasses;
    if s.colorBlindMode != NoFilter then cleared + {ModeClass(s.colorBlindMode)} else cleared
  }

  /** The remaining six add/remove calls of the source. */
  ghost function LastSteps(cs: set<CssClass>, s: Settings): set<CssClass>
  {
    var x0 := ToggleClass(cs, LargeTextModeClass, s.largeTextMode);
    var x1 := ToggleClass(x0, LargeButtonModeClass, s.largeButtonMode);
    var x2 := ToggleClass(x1, ReadingModeClass, s.readingMode);
    var x3 := ToggleClass(x2, AudioAssistanceClass, s.audioAssistance);
    var x4 := ToggleClass(x3, PictorialMenuClass, s.pictorialMenu);
    ToggleClass(x4, FocusIndicatorClass, s.focusIndicator)
  }

  /** The classes handled by `FirstSteps`. */
  const FirstClasses: set<CssClass> := {
    HighContrastClass, ReducedMotionClass, TextSpacingClass, ReadableFontClass,
    LinkHighlightClass, ProtanopiaClass, DeuteranopiaClass, TritanopiaClass }

  lemma FirstStepsApplied(before: set<CssClass>, s: Settings)
    ensures FirstSteps(before, s) == AppliedTo(before, s, FirstClasses)
  {
    ghost var done: set<CssClass> := {};
    FlagStep(before, s, done, HighContrastClass);
    done := done + {HighContrastClass};
    FlagStep(before, s, done, ReducedMotionClass);
    done := done + {ReducedMotionClass};
    FlagStep(before, s, done, TextSpacingClass);
    done := done + {TextSpacingClass};
    FlagStep(before, s, done, ReadableFontClass);
    done := done + {ReadableFontClass};
    FlagStep(before, s, done, LinkHighlightClass);
    done := done + {LinkHighlightClass};
    ColorStep(before, s, done);
    assert done + ColorClasses == FirstClasses;
  }

  /** Three consecutive add/remove steps. */
  lemma ThreeSteps(before: set<CssClass>, s: Settings, done: set<CssClass>, a: CssClass, b: CssClass, c: CssClass)
    ensures
      var cs := AppliedTo(before, s, done);
      ToggleClass(ToggleClass(ToggleClass(cs, a, Wants(s, a)), b, Wants(s, b)), c, Wants(s, c))
        == AppliedTo(before, s, done + {a, b, c})
  {
    FlagStep(before, s, done, a);
    FlagStep(before, s, done + {a}, b);
    FlagStep(before, s, done + {a} + {b}, c);
    assert done + {a} + {b} + {c} == done + {a, b, c};
  }

  lemma LastStepsApplied(before: set<CssClass>, s: Settings)
    ensures LastSteps(AppliedTo(before, s, FirstClasses), s) == AppliedTo(before, s, ManagedClasses)
  {
    var mid := FirstClasses + {LargeTextModeClass, LargeButtonModeClass, ReadingModeClass};
    ThreeSteps(before, s, FirstClasses, LargeTextModeClass, LargeButtonModeClass, ReadingModeClass);
    ThreeSteps(before, s, mid, AudioAssistanceClass, PictorialMenuClass, FocusIndicatorClass);
    LastClassesComplete();
  }

  lemma LastClassesComplete()
    ensures FirstClasses + {LargeTextModeClass, LargeButtonModeClass, ReadingModeClass}
          + {AudioAssistanceClass, PictorialMenuClass, FocusIndicatorClass} == ManagedClasses
  {
  }

  /** The source's add/remove calls, in order, end in exactly the class set `Applied` describes. */
  lemma StepsAreApplied(before: set<CssClass>, s: Settings)
    ensures LastSteps(FirstSteps(before, s), s) == Applied(before, s)
  {
    FirstStepsApplied(before, s);
    LastStepsApplied(before, s);
    assert AppliedTo(before, s, ManagedClasses) == Applied(before, s);
  }

  /** The document root: `root.style.fontSize` (in pixels) and `root.classList`. */
  class DocumentRoot {
    var fontSizePx: nat
    var classList: set<CssClass>

    /** The class list holds no `Other` token under a managed name. */
    ghost predicate Valid()
      reads this
    {
      Canonical(classList)
    }

    /** A root carrying the classes `classes`, no two of them for one name. */
    constructor (classes: set<CssClass>, px: nat)
      requires Canonical(classes)
      ensures Valid()
      ensures classList == classes && fontSizePx == px
    {
      classList := classes;
      fontSizePx := px;
    }

    /** `classList.add(c)` when `on`, `classList.remove(c)` otherwise. */
    method Toggle(c: CssClass, on: bool)
      requires c in ManagedClasses
      modifies this`classList
      ensures old(Valid()) ==> Valid()
      ensures classList == ToggleClass(old(classList), c, on)
    {
      if on { classList := classList + {c}; } else { classList := classList - {c}; }
    }

    /** `applyAccessibilitySettings(s)`, one class at a time as the source does it. */
    method Apply(s: Settings)
      requires Valid()
      modifies this
      ensures Valid()
      ensures fontSizePx == FontPx(s.fontSize)
      ensures classList == Applied(old(classList), s)
    {
      fontSizePx := FontPx(s.fontSize);
      Toggle(HighContrastClass, s.highContrast);
      Toggle(ReducedMotionClass, s.reducedMotion);
      Toggle(TextSpacingClass, s.textSpacing);
      Toggle(ReadableFontClass, s.readableFont);
      Toggle(LinkHighlightClass, s.linkHighlight);
      classList := classList - ColorClasses;
      if s.colorBlindMode != NoFilter { classList := classList + {ModeClass(s.colorBlindMode)}; }
      assert classList == FirstSteps(old(classList), s);
      ghost var mid := classList;
      Toggle(LargeTextModeClass, s.largeTextMode);
      Toggle(LargeButtonModeClass, s.largeButtonMode);
      Toggle(ReadingModeClass, s.readingMode);
      Toggle(AudioAssistanceClass, s.audioAssistance);
      Toggle(PictorialMenuClass, s.pictorialMenu);
      Toggle(FocusIndicatorClass, s.focusIndicator);
      assert classList == LastSteps(mid, s);
      StepsAreApplied(old(classList), s);
      AppliedCanonical(old(classList), s);
    }
  }
}
