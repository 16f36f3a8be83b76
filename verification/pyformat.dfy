/**
 * Python's `template.format(message=m)` restricted to templates whose only replacement field is
 * `{message}`.
 */
module PyFormat {

  const Placeholder: string := "{message}"

  predicate StartsWithPlaceholder(t: string)
  {
    |t| >= |Placeholder| && t[..|Placeholder|] == Placeholder
  }

  predicate BraceFree(s: string)
  {
    forall i :: 0 <= i < |s| ==> s[i] != '{' && s[i] != '}'
  }

  /** Every brace of the template belongs to a `{message}` field. */
  predicate TemplateOk(t: string)
    decreases |t|
  {
    if t == [] then true
    else if StartsWithPlaceholder(t) then TemplateOk(t[|Placeholder|..])
    else t[0] != '{' && t[0] != '}' && TemplateOk(t[1..])
  }

  /**
   * Replaces every `{message}` field, left to right, by `m`: from an accepted template and a
   * brace-free message no brace is left.
   */
  function Fill(t: string, m: string): (r: string)
    ensures TemplateOk(t) && BraceFree(m) ==> BraceFree(r)
    decreases |t|
  {
    if t == [] then []
    else if StartsWithPlaceholder(t) then m + Fill(t[|Placeholder|..], m)
    else [t[0]] + Fill(t[1..], m)
  }

  /** A template without braces is accepted and comes back unchanged. */
  lemma {:induction false} FillBraceFree(t: string, m: string)
    requires BraceFree(t)
    ensures TemplateOk(t) && Fill(t, m) == t
  {
    if t != [] {
      assert !StartsWithPlaceholder(t) by { assert t[0] == '{' || !StartsWithPlaceholder(t); }
      FillBraceFree(t[1..], m);
    }
  }

  /** One `{message}` field between brace-free text is replaced by the message. */
  lemma {:induction false} FillOnePlaceholder(p: string, s: string, m: string)
    requires BraceFree(p) && BraceFree(s)
    ensures TemplateOk(p + Placeholder + s) && Fill(p + Placeholder + s, m) == p + m + s
  {
    var t := p + Placeholder + s;
    if p == [] {
      assert t == Placeholder + s;
      assert t[..|Placeholder|] == Placeholder;
      assert t[|Placeholder|..] == s;
      FillBraceFree(s, m);
    } else {
      assert t[0] == p[0] && p[0] != '{' && p[0] != '}';
      assert !StartsWithPlaceholder(t) by { assert t[..|Placeholder|][0] == t[0]; }
      assert t[1..] == p[1..] + Placeholder + s;
      FillOnePlaceholder(p[1..], s, m);
      assert Fill(t, m) == [p[0]] + (p[1..] + m + s);
      assert [p[0]] + (p[1..] + m + s) == p + m + s;
    }
  }
}
