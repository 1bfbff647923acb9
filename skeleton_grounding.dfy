// The grounding promise of the executive-summary skeleton: the figures its price
// statements quote are display strings of the v2 document, listed in the audit index
// built from that document.
module SkeletonGrounding {
  import opened Wrappers
  import opened Text
  import opened Json
  import opened SkeletonBuilder
  import V1ToV2Builder

  /** What the builder promises of its sections: `meta` first, then a price section
      of the shape it builds. */
  predicate BuiltSections(sections: seq<(string, Json)>)
  {
    |sections| >= 2 && sections[0].0 == "meta" && sections[1].0 == "price" &&
    V1ToV2Builder.PriceShape(sections[1].1)
  }

  /** Both the document and its sections hold the price section second. */
  lemma PriceOfDocument(sections: seq<(string, Json)>, index: V1ToV2Builder.AuditLists)
    requires BuiltSections(sections)
    ensures Peek(V1ToV2Builder.WithAuditIndex(sections, index), "price", EmptyObj) == sections[1].1
    ensures Member(JObj(sections), "price") == Some(sections[1].1)
  {
    var v2 := V1ToV2Builder.WithAuditIndex(sections, index);
    assert v2.fields[0] == sections[0] && v2.fields[1] == sections[1];
    assert "meta" != "price" by { V1ToV2Builder.KeysDiffer(); }
    LookupSecond(v2.fields, "price");
    LookupSecond(sections, "price");
  }

  /** Where a built price section keeps its volatility and maximum-drawdown displays. */
  lemma FiguresOfPrice(price: Json)
    requires V1ToV2Builder.PriceShape(price)
    ensures Member(price, "volatility") == Some(price.fields[2].1)
    ensures Member(price, "drawdown") == Some(price.fields[3].1)
    ensures Member(price.fields[2].1, "display") == Some(price.fields[2].1.fields[2].1)
    ensures Member(price.fields[3].1, "max_dd_display") == Some(price.fields[3].1.fields[1].1)
  {
    V1ToV2Builder.KeysDiffer();
    LookupThird(price.fields, "volatility");
    LookupFourth(price.fields, "drawdown");
    LookupThird(price.fields[2].1.fields, "display");
    LookupSecond(price.fields[3].1.fields, "max_dd_display");
  }

  /** The volatility and maximum-drawdown displays of such a document are the ones its
      price section holds. */
  lemma RiskDisplaysOfBuilt(sections: seq<(string, Json)>, index: V1ToV2Builder.AuditLists, d: string)
    requires BuiltSections(sections)
    requires var v2 := V1ToV2Builder.WithAuditIndex(sections, index);
      VolatilityDisplay(v2) == JStr(d) || MaxDrawdownDisplay(v2) == JStr(d)
    ensures V1ToV2Builder.Nested(JObj(sections), "price", "volatility", "display") == Some(JStr(d)) ||
      V1ToV2Builder.Nested(JObj(sections), "price", "drawdown", "max_dd_display") == Some(JStr(d))
  {
    PriceOfDocument(sections, index);
    FiguresOfPrice(sections[1].1);
  }

  /** `test_skeleton_builder`'s grounding promise for the figures the price statements
      quote: in a document whose audit index is built from its own sections (the
      document `BuildCorrectedMetricsV2` returns, whose sections are of this form by
      `BuilderSectionsBuilt`), the volatility and the maximum
      drawdown, whenever shown, appear in the skeleton's paragraph and are among the
      index's percent strings. */
  lemma SkeletonGrounded(show: Json -> string, sections: seq<(string, Json)>, d: string)
    requires BuiltSections(sections) && d != NotAvailable
    requires var v2 := V1ToV2Builder.WithAuditIndex(sections, V1ToV2Builder.AuditIndex(JObj(sections)));
      VolatilityDisplay(v2) == JStr(d) || MaxDrawdownDisplay(v2) == JStr(d)
    ensures var v2 := V1ToV2Builder.WithAuditIndex(sections, V1ToV2Builder.AuditIndex(JObj(sections)));
      Paragraph(show, v2).Ok? ==> Contains(Paragraph(show, v2).value, d)
    ensures d in V1ToV2Builder.AuditIndex(JObj(sections)).percentStrings
  {
    var v2 := V1ToV2Builder.WithAuditIndex(sections, V1ToV2Builder.AuditIndex(JObj(sections)));
    RiskDisplaysOfBuilt(sections, V1ToV2Builder.AuditIndex(JObj(sections)), d);
    V1ToV2Builder.PriceDisplaysIndexed(sections, sections[1].1, d);
    if Paragraph(show, v2).Ok? {
      var cs := Components(show, v2).value;
      if VolatilityDisplay(v2) == JStr(d) {
        VolatilityQuoted(show, v2);
        JoinPiecesKeeps(cs, " ", 2, Val(d));
      } else {
        MaxDrawdownQuoted(show, v2);
        JoinPiecesKeeps(cs, " ", 3, Val(d));
      }
      ValueShown(JoinPieces(cs, " "), d);
    }
  }

  /** The sections `build_enhanced_metrics_v2` assembles are of that form. */
  lemma BuilderSectionsBuilt(env: V1ToV2Builder.Env, v1: Json, sections: seq<(string, Json)>)
    requires V1ToV2Builder.Sections(env, v1) == Ok(sections)
    ensures BuiltSections(sections)
  {
  }
}
