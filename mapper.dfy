/**
 * The field matcher (internal/mapper/mapper.go): the default, purely nominal
 * correspondence between the fields of two structs, and the test for a field
 * pair that needs a recursive conversion.
 */
module Mapper {
  import opened Types
  import opened GoStrings

  /** The correspondence MatchFields computes: every shared name, mapped to itself. */
  function NominalMatches(source: StructInfo, target: StructInfo): map<string, string>
  {
    map k | k in FieldNames(source.fields) * FieldNames(target.fields) :: k
  }

  /** FieldMatcher.MatchFields (mapper.go:11-22). */
  method MatchFields(source: StructInfo, target: StructInfo) returns (matches: map<string, string>)
    ensures forall k :: k in matches <==> k in FieldNames(source.fields) && k in FieldNames(target.fields)
    ensures forall k :: k in matches ==> matches[k] == k
    ensures matches == NominalMatches(source, target)
  {
    matches := map[];
    var targetFields: map<string, bool> := map[];

    for i := 0 to |target.fields|
      invariant targetFields.Keys == FieldNames(target.fields[..i])
      invariant forall k :: k in targetFields ==> targetFields[k]
    {
      TakeStep(target.fields, i);
      targetFields := targetFields[target.fields[i].name := true];
    }
    assert target.fields[..|target.fields|] == target.fields;

    for i := 0 to |source.fields|
      invariant matches.Keys == FieldNames(source.fields[..i]) * FieldNames(target.fields)
      invariant forall k :: k in matches ==> matches[k] == k
    {
      TakeStep(source.fields, i);
      var sf := source.fields[i];
      if sf.name in targetFields && targetFields[sf.name] {
        matches := matches[sf.name := sf.name];
      }
    }
    assert source.fields[..|source.fields|] == source.fields;
  }

  /** FieldMatcher.NeedsRecursiveMapping (mapper.go:24-27). */
  predicate NeedsRecursiveMapping(sourceField: FieldInfo, targetField: FieldInfo)
  {
    sourceField.isNested && targetField.isNested
  }

  /** Only the nested flags decide; the pointer and slice flags are irrelevant. */
  lemma RecursiveMappingIgnoresShape(sf: FieldInfo, tf: FieldInfo, p1: bool, s1: bool, p2: bool, s2: bool)
    ensures NeedsRecursiveMapping(sf, tf)
            == NeedsRecursiveMapping(sf.(isPointer := p1, isSlice := s1), tf.(isPointer := p2, isSlice := s2))
    ensures NeedsRecursiveMapping(sf, tf) <==> sf.isNested && tf.isNested
  {
  }

  /** Matching a struct against one with the same field names maps every source name to itself. */
  lemma SameNamesMatchAll(source: StructInfo, target: StructInfo)
    requires FieldNames(target.fields) == FieldNames(source.fields)
    ensures NominalMatches(source, target).Keys == FieldNames(source.fields)
    ensures forall k :: k in FieldNames(source.fields) ==> NominalMatches(source, target)[k] == k
  {
  }

  /** Matching never invents a name: every key is a source field name and the result is symmetric. */
  lemma MatchesAreSourceNames(source: StructInfo, target: StructInfo)
    ensures NominalMatches(source, target).Keys <= FieldNames(source.fields)
    ensures NominalMatches(source, target) == NominalMatches(target, source)
  {
  }
}
