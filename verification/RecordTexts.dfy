/** packages/search/src/records.ts: which records are accepted, by the form of their texts. */
module RecordTexts {
  import opened Wrappers
  import opened SearchRecords

  /** Hexadecimal digits in lower case. */
  predicate AreHex(s: string) {
    forall i :: 0 <= i < |s| ==> '0' <= s[i] <= '9' || 'a' <= s[i] <= 'f'
  }

  /** Groups of 8, 4, 4, 4 and 12 digits; the third begins with 7, the fourth with its variant. */
  predicate IsUuid(s: string) {
    && |s| == 36 && s[8] == s[13] == s[18] == s[23] == '-'
    && AreHex(s[..8]) && AreHex(s[9..13]) && s[14] == '7' && AreHex(s[15..18])
    && (s[19] == '8' || s[19] == '9' || s[19] == 'a' || s[19] == 'b') && AreHex(s[20..23]) && AreHex(s[24..])
  }

  lemma GroupIsHex(s: string, a: nat, b: nat)
    requires |s| == 36 && a <= b <= 36
    ensures AreHex(s[a..b]) <==> forall i :: a <= i < b ==> IsLowerHex(s[i])
  {
    if AreHex(s[a..b]) {
      forall i | a <= i < b
        ensures IsLowerHex(s[i])
      {
        assert s[i] == s[a..b][i - a];
      }
    }
  }

  /** The ids that are accepted are exactly the texts of this form. */
  lemma UuidsExactly(s: string)
    ensures IsUuidV7(s) <==> IsUuid(s)
  {
    if |s| == 36 {
      hide IsLowerHex, AreHex;
      GroupIsHex(s, 0, 8);
      GroupIsHex(s, 9, 13);
      GroupIsHex(s, 15, 18);
      GroupIsHex(s, 20, 23);
      GroupIsHex(s, 24, 36);
      Digits(s);
    }
  }

  lemma Digits(s: string)
    requires |s| == 36
    ensures s[14] == '7' ==> IsLowerHex(s[14])
    ensures s[19] == '8' || s[19] == '9' || s[19] == 'a' || s[19] == 'b' ==> IsLowerHex(s[19])
  {
  }

  /** Letters, digits, underscore and hyphen, and these other characters. */
  predicate AreNames(s: string, others: set<char>) {
    forall c :: c in s ==> 'a' <= c <= 'z' || 'A' <= c <= 'Z' || '0' <= c <= '9' || c == '_' || c == '-' || c in others
  }

  predicate IsSafe(n: int) {
    0 <= n < 0x20_0000_0000_0000
  }

  /** Exactly these records are accepted. */
  lemma RecordsExactly(task: TaskRecord, section: SectionInput, document: DocumentInput, message: MessageRecord)
    ensures AcceptsTask(task) <==>
            && IsUuid(task.id) && (task.parentId.None? || IsUuid(task.parentId.value))
            && (task.collection == "now" || task.collection == "later" || task.collection == "unclassified")
            && IsSafe(task.updatedAt) && IsSafe(task.version)
    ensures AcceptsSection(section) <==>
            0 < |section.sectionId| <= 256 && AreNames(section.sectionId, {'.', ':'}) && IsSafe(section.ordinal)
    ensures AcceptsDocument(document) <==>
            && IsUuid(document.taskId) && 0 < |document.revision| <= 128 && AreNames(document.revision, {})
            && (forall x :: x in document.sections ==> AcceptsSection(x))
            && forall i, j :: 0 <= i < |document.sections| && 0 <= j < |document.sections| && i != j ==>
                                document.sections[i].ordinal != document.sections[j].ordinal
    ensures AcceptsMessage(message) <==>
            && IsUuid(message.id) && IsUuid(message.taskId) && IsUuid(message.conversationId)
            && (message.speaker == "user" || message.speaker == "simon") && IsSafe(message.createdAt)
  {
    hide IsUuidV7, IsUuid, IsNameChar, AreNames;
    forall s
      ensures IsUuidV7(s) <==> IsUuid(s)
    {
      UuidsExactly(s);
    }
    NamesAre(section.sectionId);
    NamesAre(document.revision);
    hide IsSectionId;
    if AcceptsDocument(document) {
      forall x | x in document.sections
        ensures AcceptsSection(x)
      {
        var i :| 0 <= i < |document.sections| && document.sections[i] == x;
      }
    }
  }

  lemma NamesAre(s: string)
    ensures AreNames(s, {'.', ':'}) <==> forall i :: 0 <= i < |s| ==> IsNameChar(s[i]) || s[i] == '.' || s[i] == ':'
    ensures AreNames(s, {}) <==> forall i :: 0 <= i < |s| ==> IsNameChar(s[i])
  {
    assert forall i :: 0 <= i < |s| ==> s[i] in s;
  }
}
