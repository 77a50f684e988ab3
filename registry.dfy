/** The tag registry of themes/butterfly/source/js/callout-parser.js: three
    constant tables keyed by a lowercased tag (icon, default title, alias
    target) and the fallbacks applied when a tag is not in a table. */
module Registry {
  import opened Options
  import opened Text

  /** `CALLOUT_ICONS`. */
  const Icons: map<string, string> := map[
    "note" := "💡", "tip" := "✅", "hint" := "✅", "warning" := "⚠️",
    "attention" := "⚠️", "danger" := "🚨", "caution" := "⚠️", "info" := "ℹ️",
    "important" := "📌", "abstract" := "📋", "summary" := "📋", "question" := "❓",
    "faq" := "❓", "example" := "📝", "quote" := "💬", "success" := "✅",
    "failure" := "❌", "error" := "❌", "bug" := "🐛"
  ]

  /** `CALLOUT_TITLES`. */
  const Titles: map<string, string> := map[
    "note" := "NOTE", "tip" := "TIP", "hint" := "HINT", "warning" := "WARNING",
    "attention" := "ATTENTION", "danger" := "DANGER", "caution" := "CAUTION", "info" := "INFO",
    "important" := "IMPORTANT", "abstract" := "ABSTRACT", "summary" := "SUMMARY",
    "question" := "QUESTION", "faq" := "FAQ", "example" := "EXAMPLE", "quote" := "QUOTE",
    "success" := "SUCCESS", "failure" := "FAILURE", "error" := "ERROR", "bug" := "BUG"
  ]

  /** `TYPE_ALIASES`: a tag that borrows the styling category of another. */
  const Aliases: map<string, string> := map[
    "hint" := "tip", "attention" := "warning", "caution" := "warning",
    "abstract" := "info", "summary" := "info", "question" := "warning",
    "faq" := "warning", "example" := "note", "quote" := "note",
    "success" := "tip", "failure" := "danger", "error" := "danger", "bug" := "danger"
  ]

  /** The glyph shown for a tag that has no icon of its own. */
  const FallbackIcon: string := "📝"

  /** `TYPE_ALIASES[rawType] || rawType`: the value of the `data-callout`
      marker, with the lookup restricted to the table's own keys. */
  function Category(tag: string): (r: string)
    ensures tag in Aliases ==> r == Aliases[tag] && r != tag
    ensures tag !in Aliases ==> r == tag
    ensures r !in Aliases || r == tag
  {
    AliasesAreOneStep();
    if tag in Aliases then Aliases[tag] else tag
  }

  /** `CALLOUT_ICONS[rawType] || '📝'`. */
  function Icon(tag: string): (r: string)
    ensures tag in Icons ==> r == Icons[tag]
    ensures tag !in Icons ==> r == FallbackIcon
    ensures r != []
  {
    if tag in Icons then Icons[tag] else FallbackIcon
  }

  /** `CALLOUT_TITLES[rawType] || rawType.charAt(0).toUpperCase() + rawType.slice(1)`:
      the title shown when the block gives none. */
  function DefaultTitle(tag: string): (r: string)
    ensures tag in Titles ==> r == Titles[tag]
    ensures tag !in Titles ==> r == UpperFirst(tag)
    ensures tag != [] ==> r != []
  {
    if tag in Titles then Titles[tag] else UpperFirst(tag)
  }

  /** Alias resolution takes one step: no alias target is itself an alias key. */
  lemma AliasesAreOneStep()
    ensures forall k :: k in Aliases ==> Aliases[k] !in Aliases
  {
  }

  /** Every alias target is a tag with an icon and a title of its own. */
  lemma AliasTargetsAreKnown()
    ensures forall k :: k in Aliases ==> Aliases[k] in Icons && Aliases[k] in Titles
  {
  }

  /** Resolving a category a second time changes nothing. */
  lemma CategoryIdempotent(tag: string)
    ensures Category(Category(tag)) == Category(tag)
  {
  }

  /** The resolved category is never an alias key. */
  lemma CategoryNeverAlias(tag: string)
    ensures Category(tag) !in Aliases
  {
    AliasesAreOneStep();
  }

  /** Every alias key is a known tag: it has its own icon and default title. */
  lemma AliasKeysAreKnown()
    ensures forall k :: k in Aliases ==> k in Icons && k in Titles
    ensures Icons.Keys == Titles.Keys
  {
  }

  /** The lookups as the source performs them: `TABLE[key]` on a plain object
      literal also finds the properties every object inherits from
      `Object.prototype`. Of those, the only names a lowercased `[\w-]+` tag can
      spell are `constructor` (the `Object` function) and `__proto__` (the
      prototype object itself, which prints as `[object Object]`). How a
      native function prints depends on the engine: V8 and JavaScriptCore give
      the one-line text below, SpiderMonkey spreads it over several lines; the
      lemmas below depend only on it differing from the tag's own fallbacks. */
  function InheritedProperty(key: string): (r: Option<string>)
    ensures r.Some? <==> key == "constructor" || key == "__proto__"
  {
    if key == "constructor" then Some("function Object() { [native code] }")
    else if key == "__proto__" then Some("[object Object]")
    else None
  }

  /** `table[key]` on an object literal: an own key, else an inherited one. */
  function ObjectLookup(table: map<string, string>, key: string): (r: Option<string>)
    ensures key in table ==> r == Some(table[key])
    ensures key !in table ==> r == InheritedProperty(key)
  {
    if key in table then Some(table[key]) else InheritedProperty(key)
  }

  /** Line 97 as written. */
  function CategoryAsWritten(tag: string): (r: string)
    ensures tag in Aliases ==> r == Category(tag)
  {
    match ObjectLookup(Aliases, tag)
    case Some(v) => v
    case None => tag
  }

  /** Line 100 as written. */
  function IconAsWritten(tag: string): (r: string)
    ensures tag in Icons ==> r == Icon(tag)
  {
    match ObjectLookup(Icons, tag)
    case Some(v) => v
    case None => FallbackIcon
  }

  /** Line 101's table lookup and fallback as written. */
  function DefaultTitleAsWritten(tag: string): (r: string)
    ensures tag in Titles ==> r == DefaultTitle(tag)
  {
    match ObjectLookup(Titles, tag)
    case Some(v) => v
    case None => UpperFirst(tag)
  }

  /** A block tagged `[!constructor]` is styled, iconed and titled with the
      printed `Object` function instead of the tag: the source disagrees with
      the fallback its `||` chains evidently intend. */
  lemma ConstructorTagMisresolves()
    ensures CategoryAsWritten("constructor") != "constructor"
    ensures Category("constructor") == "constructor"
    ensures IconAsWritten("constructor") != Icon("constructor")
    ensures DefaultTitleAsWritten("constructor") != DefaultTitle("constructor")
  {
  }

  /** A block tagged `[!__proto__]` is styled, iconed and titled with
      `[object Object]`. */
  lemma ProtoTagMisresolves()
    ensures CategoryAsWritten("__proto__") == "[object Object]"
    ensures Category("__proto__") == "__proto__"
    ensures IconAsWritten("__proto__") != Icon("__proto__")
    ensures DefaultTitleAsWritten("__proto__") != DefaultTitle("__proto__")
  {
  }

  /** The as-written lookups agree with the corrected ones on every tag except
      the two inherited property names. */
  lemma AsWrittenAgreesElsewhere(tag: string)
    requires tag != "constructor" && tag != "__proto__"
    ensures CategoryAsWritten(tag) == Category(tag)
    ensures IconAsWritten(tag) == Icon(tag)
    ensures DefaultTitleAsWritten(tag) == DefaultTitle(tag)
  {
  }
}
