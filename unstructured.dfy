/**
 * The schema-less resource object that the manifest holds (an `unstructured.Unstructured`),
 * restricted to the parts the controller's transformers read or write, and Go's
 * `strings.ToLower`, which the transformers use to compare kinds.
 */
module Unstructured {
  import opened Errors

  /** A JSON value inside a resource object. */
  datatype Value =
    | Str(s: string)
    | Obj(fields: map<string, Value>)
    | List(items: seq<Value>)
    | Scalar(text: string)   // a number, a boolean or null

  /**
   * A resource of the manifest.
   * `kind` is what GetKind reads ("" when the field is absent or not a string);
   * `name` is metadata.name; `labels` is what GetLabels reads (empty when absent);
   * `subjects` is the top-level "subjects" field, when present, whatever its JSON type;
   * `other` holds every other field (apiVersion, metadata.namespace, ownerReferences, spec, ...).
   */
  datatype Resource = Resource(
    kind: string,
    name: string,
    labels: map<string, string>,
    subjects: Option<Value>,
    other: map<string, Value>)

  /** Go's `m[key]` on a map[string]string: the zero value "" for a missing key. */
  function LabelValue(labels: map<string, string>, key: string): string
  {
    if key in labels then labels[key] else ""
  }

  /**
   * unicode.ToLower on one rune, as far as comparisons with lower-case ASCII words can
   * observe it: ASCII capitals, and the two non-ASCII runes whose lower case is an ASCII
   * letter (U+0130 LATIN CAPITAL LETTER I WITH DOT ABOVE and U+212A KELVIN SIGN).
   * Every other rune is kept; its real lower case is never an ASCII letter either.
   */
  function LowerRune(c: char): char
  {
    if 'A' <= c <= 'Z' then (c as int + 32) as char
    else if c == '\U{130}' then 'i'
    else if c == '\U{212A}' then 'k'
    else c
  }

  /** strings.ToLower: maps every rune of `s` in order. */
  function Lower(s: string): string
  {
    seq(|s|, i requires 0 <= i < |s| => LowerRune(s[i]))
  }

  /** Every rune of `t` is a lower-case ASCII letter, as in the kinds the controller compares against. */
  predicate IsLowerAsciiWord(t: string)
  {
    forall i :: 0 <= i < |t| ==> 'a' <= t[i] <= 'z'
  }

  /** Rune `c` is a spelling of the lower-case ASCII letter `l` in some case. */
  predicate SpellsLetter(c: char, l: char)
  {
    c == l || c as int == l as int - 32 || (l == 'i' && c == '\U{130}') || (l == 'k' && c == '\U{212A}')
  }

  /**
   * A kind comparison `strings.ToLower(s) == t` against a lower-case word `t` accepts exactly
   * the spellings of `t` in any mixture of upper and lower case (for example "ClusterRoleBinding",
   * "CLUSTERROLEBINDING" and "clusterrolebinding" all match "clusterrolebinding").
   */
  lemma LowerEqualsIff(s: string, t: string)
    requires IsLowerAsciiWord(t)
    ensures Lower(s) == t <==> |s| == |t| && forall i :: 0 <= i < |s| ==> SpellsLetter(s[i], t[i])
  {
    if |s| == |t| {
      forall i | 0 <= i < |s| ensures LowerRune(s[i]) == t[i] <==> SpellsLetter(s[i], t[i]) {
        assert 'a' <= t[i] <= 'z';
      }
      if Lower(s) == t {
        forall i | 0 <= i < |s| ensures SpellsLetter(s[i], t[i]) {
          assert Lower(s)[i] == LowerRune(s[i]);
        }
      }
    }
  }
}
