/** The attribute lists of the DAX document type, one rule per declaration. */
module DaxDtd {
  import opened DaxAutomaton

  datatype Kind = Text | OneOf(values: set<string>)

  /** Required, without a default, or with one. */
  datatype Presence = Must | May | Else(value: string)

  datatype Rule = Rule(e: Element, name: string, kind: Kind, presence: Presence)

  const Rules: set<Rule> := {
    Rule(Adag, "xmlns", Text, Else("http://pegasus.isi.edu/schema/DAX")),
    Rule(Adag, "xmlns:xsi", Text, Else("http://www.w3.org/2001/XMLSchema-instance")),
    Rule(Adag, "xsi:schemaLocation", Text, Else("http://pegasus.isi.edu/schema/DAX http://pegasus.isi.edu/schema/dax-2.1.xsd")),
    Rule(Adag, "version", Text, Else("1.0")),
    Rule(Adag, "count", Text, Else("0")),
    Rule(Adag, "index", Text, Else("0")),
    Rule(Adag, "name", Text, Else("0")),
    Rule(Adag, "jobCount", Text, Else("0")),
    Rule(Adag, "fileCount", Text, Else("0")),
    Rule(Adag, "childCount", Text, Else("0")),
    Rule(Job, "id", Text, Must),
    Rule(Job, "namespace", Text, Else("")),
    Rule(Job, "name", Text, Must),
    Rule(Job, "version", Text, Else("0.0")),
    Rule(Job, "runtime", Text, Must),
    Rule(Job, "level", Text, Else("")),
    Rule(Uses, "file", Text, Must),
    Rule(Uses, "link", OneOf({"input", "output"}), May),
    Rule(Uses, "register", OneOf({"false", "true"}), Else("true")),
    Rule(Uses, "transfer", OneOf({"false", "true"}), Else("true")),
    Rule(Uses, "optional", OneOf({"false", "true"}), Else("false")),
    Rule(Uses, "type", Text, Else("data")),
    Rule(Uses, "size", Text, Must),
    Rule(Child, "ref", Text, Must),
    Rule(Parent, "ref", Text, Must)
  }
}
