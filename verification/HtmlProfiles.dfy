/** The two exported sanitizers: packages/shared-types/src/attribution-html.ts:86-151. */
module HtmlProfiles {
  import opened HtmlText
  import opened HtmlSanitizer
  import HtmlCut
  import HtmlBound

  function AttributionProfile(names: Names): Profile {
    Profile(2000, {Lit("a"), Lit("b"), Lit("strong"), Lit("em"), Lit("i"), Lit("span")}, {}, names)
  }

  function PopupProfile(names: Names): Profile {
    Profile(20000,
            AttributionProfile(names).allowed
            + {Lit("br"), Lit("p"), Lit("div"), Lit("ul"), Lit("ol"), Lit("li"), Lit("h1"), Lit("h2"), Lit("h3")},
            {Lit("br")}, names)
  }

  lemma LiteralTagName(name: string)
    requires name != "" && 'a' <= name[0] <= 'z'
    requires forall k :: 0 <= k < |name| ==> 'a' <= name[k] <= 'z' || '0' <= name[k] <= '9'
    ensures IsTagName(Lit(name))
  {
  }

  lemma ProfilesAreValid(names: Names)
    requires KnowsEscapes(names)
    ensures ValidProfile(AttributionProfile(names)) && ValidProfile(PopupProfile(names))
  {
    hide IsTagName;
    LiteralTagName("a"); LiteralTagName("b"); LiteralTagName("strong"); LiteralTagName("em"); LiteralTagName("i");
    LiteralTagName("span"); LiteralTagName("br"); LiteralTagName("p"); LiteralTagName("div"); LiteralTagName("ul");
    LiteralTagName("ol"); LiteralTagName("li"); LiteralTagName("h1"); LiteralTagName("h2"); LiteralTagName("h3");
  }

  /** Both exported sanitizers are idempotent on exactly the inputs whose output fits their cap or is cut
      safely by it, and on every input of at most 285 and 2857 units. */
  lemma BothProfilesAreIdempotentIff(names: Names, input: Text)
    requires KnowsEscapes(names)
    ensures forall p :: p in {AttributionProfile(names), PopupProfile(names)} ==>
              && ValidProfile(p)
              && (Sanitize(p, Sanitize(p, input)) == Sanitize(p, input) <==>
                  |Sanitize(p, input)| <= p.maxLength || HtmlCut.IsSafeCut(Sanitize(p, input), p.maxLength))
    ensures HtmlBound.ModestNames(names) && |input| <= 285 ==>
              var p := AttributionProfile(names); Sanitize(p, Sanitize(p, input)) == Sanitize(p, input)
    ensures HtmlBound.ModestNames(names) && |input| <= 2857 ==>
              var p := PopupProfile(names); Sanitize(p, Sanitize(p, input)) == Sanitize(p, input)
  {
    ProfilesAreValid(names);
    hide Sanitize, IsTagName, HtmlCut.IsSafeCut;
    HtmlCut.IdempotentIff(AttributionProfile(names), input);
    HtmlCut.IdempotentIff(PopupProfile(names), input);
    if HtmlBound.ModestNames(names) {
      HtmlBound.ShortInputsAreIdempotent(AttributionProfile(names), input);
      HtmlBound.ShortInputsAreIdempotent(PopupProfile(names), input);
    }
  }
}
