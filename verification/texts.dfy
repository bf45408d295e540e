/** Texts of the printer's worked examples, put together from their pieces.
    They are checked here, apart from the printer's definitions, because
    comparing literal strings is checked character by character. */
module Texts {
  /** The quoted snake-cased setting name inside a `setting` query. */
  lemma SettingText()
    ensures ("self.setting(" + (("\"" + "logic_foo_bar") + "\"")) + ")" == "self.setting(\"logic_foo_bar\")"
  {
  }

  /** Two flag queries joined by `and`. */
  lemma FlagPairText()
    ensures ("self." + "flag_on" + "(\"" + "X" + "\")") + (" " + "and" + " ") +
            ("self." + "flag_on" + "(\"" + "Y" + "\")")
            == "self.flag_on(\"X\") and self.flag_on(\"Y\")"
  {
  }

  /** The header of the generated constructor. */
  lemma InitText()
    ensures "def " + "__init__" + "(" + "self" + ", state: Any" + "):\n" == "def __init__(self, state: Any):\n"
    ensures ", " + "state" + ": Any" + "" == ", state: Any"
  {
  }

  /** The header of a generated class. */
  lemma ClassText()
    ensures "class " + "MacrosOoT" + "(" + "MacrosBase" + "):\n" == "class MacrosOoT(MacrosBase):\n"
  {
  }

  /** The start of an `event` query, whatever its argument. */
  lemma EventCallText(q: string)
    ensures "self" + "." + "event" + "(" + q == "self.event(" + q
  {
    assert "self" + "." + "event" + "(" == "self.event(";
  }

  /** A lambda whose body queries its own parameter. */
  lemma LambdaText()
    ensures "self.setting(" + "x" + ")" == "self.setting(x)"
    ensures "lambda x: " + "self.setting(x)" == "lambda x: self.setting(x)"
    ensures "lambda" + " x" + ": " == "lambda x: "
  {
  }
}
