/** The four rules shared by the native log parsers (CommonParserOptions): whether
    an unmatched raw log, a renamed copy of the source field, or an erased source
    field is added, and whether a failed event is dropped altogether. */
module ParserOptions {

  /** Key under which an unparsed log line is kept. */
  const UnmatchLogKey: string := "__raw_log__"
  /** Reserved content key carrying the file offset. */
  const ReservedFileOffsetKey: string := "__file_offset__"
  /** The group-metadata spelling of the file offset, accepted by the unit-test build only. */
  const GroupMetaFileOffsetKey: string := "log.file.offset"

  /** A log event's contents: field name to field value. */
  type Contents = map<string, string>

  datatype Options = Options(
    keepingSourceWhenParseFail: bool,
    keepingSourceWhenParseSucceed: bool,
    renamedSourceKey: string,
    copingRawLog: bool)

  /** The option values before the configuration is read. */
  function DefaultOptions(): (o: Options)
    ensures !o.keepingSourceWhenParseFail && !o.keepingSourceWhenParseSucceed && !o.copingRawLog
    ensures o.renamedSourceKey == ""
  {
    Options(false, false, "", false)
  }

  /** Whether the source is kept for a parse with this outcome. */
  function KeepsSource(o: Options, parseSuccess: bool): bool
  {
    if parseSuccess then o.keepingSourceWhenParseSucceed else o.keepingSourceWhenParseFail
  }

  predicate ShouldAddUnmatchLog(o: Options, parseSuccess: bool)
  {
    !parseSuccess && o.keepingSourceWhenParseFail && o.copingRawLog
  }

  predicate ShouldAddRenamedSourceLog(o: Options, parseSuccess: bool, sourceKey: string)
  {
    ((parseSuccess && o.keepingSourceWhenParseSucceed) || (!parseSuccess && o.keepingSourceWhenParseFail))
    && sourceKey != o.renamedSourceKey
  }

  predicate ShouldAddEarseSourceLog(o: Options, parseSuccess: bool)
  {
    (parseSuccess && !o.keepingSourceWhenParseSucceed) || (!parseSuccess && !o.keepingSourceWhenParseFail)
  }

  /** The only contents a failed event may hold and still count as empty. */
  predicate IsFileOffsetKey(key: string, unitTestBuild: bool)
  {
    key == ReservedFileOffsetKey || (unitTestBuild && key == GroupMetaFileOffsetKey)
  }

  predicate ShouldEraseEvent(o: Options, parseSuccess: bool, contents: Contents, unitTestBuild: bool)
  {
    if !parseSuccess && !o.keepingSourceWhenParseFail then
      |contents| == 0
      || (|contents| == 1 && exists k :: k in contents && IsFileOffsetKey(k, unitTestBuild))
    else
      false
  }

  /** An unmatched log is added exactly on a failure whose source field is not erased and
      copying is on; the event it goes into is then never dropped, and it is renamed
      alongside exactly when the names differ. */
  lemma UnmatchLogKeepsEvent(o: Options, parseSuccess: bool, sourceKey: string, contents: Contents, unitTestBuild: bool)
    ensures ShouldAddUnmatchLog(o, parseSuccess)
        <==> !parseSuccess && !ShouldAddEarseSourceLog(o, parseSuccess) && o.copingRawLog
    ensures ShouldAddUnmatchLog(o, parseSuccess) ==> !ShouldEraseEvent(o, parseSuccess, contents, unitTestBuild)
    ensures ShouldAddUnmatchLog(o, parseSuccess)
        ==> (ShouldAddRenamedSourceLog(o, parseSuccess, sourceKey) <==> sourceKey != o.renamedSourceKey)
  {
  }

  /** A renamed copy is never written onto the field it would be renamed to. */
  lemma RenamedSourceNeverOntoItself(o: Options, parseSuccess: bool)
    ensures !ShouldAddRenamedSourceLog(o, parseSuccess, o.renamedSourceKey)
  {
  }

  /** Erasing the source is exactly not keeping it, for either outcome. */
  lemma EraseIsNotKeep(o: Options, parseSuccess: bool)
    ensures ShouldAddEarseSourceLog(o, parseSuccess) <==> !KeepsSource(o, parseSuccess)
  {
  }

  /** The source is never both renamed and erased. */
  lemma RenamedAndEraseExclusive(o: Options, parseSuccess: bool, sourceKey: string)
    ensures !(ShouldAddRenamedSourceLog(o, parseSuccess, sourceKey) && ShouldAddEarseSourceLog(o, parseSuccess))
  {
  }

  /** Renaming happens exactly when the source is kept and the names differ. */
  lemma RenamedIsKeep(o: Options, parseSuccess: bool, sourceKey: string)
    ensures ShouldAddRenamedSourceLog(o, parseSuccess, sourceKey)
        <==> KeepsSource(o, parseSuccess) && sourceKey != o.renamedSourceKey
  {
  }

  /** A successful parse, or a kept failed one, never drops the event. */
  lemma EraseEventOnlyOnDroppedFailure(o: Options, parseSuccess: bool, contents: Contents, unitTestBuild: bool)
    requires parseSuccess || o.keepingSourceWhenParseFail
    ensures !ShouldEraseEvent(o, parseSuccess, contents, unitTestBuild)
  {
  }

  /** A failed, unkept event is dropped when it is empty or holds only the file offset. */
  lemma EraseEventWhenEmptyOrOffsetOnly(o: Options, contents: Contents, unitTestBuild: bool)
    requires !o.keepingSourceWhenParseFail
    ensures ShouldEraseEvent(o, false, contents, unitTestBuild)
        <==> (contents == map[] || contents.Keys == {ReservedFileOffsetKey}
              || (unitTestBuild && contents.Keys == {GroupMetaFileOffsetKey}))
  {
    if |contents| == 1 {
      var k :| k in contents;
      assert |contents.Keys - {k}| == 0;
      assert contents.Keys == {k};
    }
    if contents.Keys == {ReservedFileOffsetKey} {
      assert ReservedFileOffsetKey in contents && |contents.Keys| == 1;
    }
    if unitTestBuild && contents.Keys == {GroupMetaFileOffsetKey} {
      assert GroupMetaFileOffsetKey in contents && |contents.Keys| == 1;
    }
  }

  /** The production build drops only on the reserved offset key, not on the metadata spelling. */
  lemma ProductionKeepsGroupMetaOffset(o: Options, v: string)
    requires !o.keepingSourceWhenParseFail
    ensures !ShouldEraseEvent(o, false, map[GroupMetaFileOffsetKey := v], false)
    ensures ShouldEraseEvent(o, false, map[GroupMetaFileOffsetKey := v], true)
  {
    assert map[GroupMetaFileOffsetKey := v].Keys == {GroupMetaFileOffsetKey};
  }
}
