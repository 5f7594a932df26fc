/** The lines of the repository's own unit tests for `GameEvent.ParseLog`, classified
    by the model: each expected event is proved from the general per-kind lemmas. */
module GameEventTests {
  import opened Common
  import opened Text
  import opened Timestamp
  import opened GameEvents
  import opened LegacyProgram

  /** The timestamp tokens of the unit tests' lines. */
  lemma ChatTestStamp(stamp: string)
    requires stamp == "[2025.02.06-19.12.49]"
    ensures ParseExact(stamp) == Some(DateTime(2025, 2, 6, 19, 12, 49))
  {
    ParseDigits(stamp, DateTime(2025, 2, 6, 19, 12, 49));
  }

  lemma LoginTestStamp(stamp: string)
    requires stamp == "[2025.02.06-17.12.35]"
    ensures ParseExact(stamp) == Some(DateTime(2025, 2, 6, 17, 12, 35))
  {
    ParseDigits(stamp, DateTime(2025, 2, 6, 17, 12, 35));
  }

  lemma LogoutTestStamp(stamp: string)
    requires stamp == "[2025.02.06-22.13.57]"
    ensures ParseExact(stamp) == Some(DateTime(2025, 2, 6, 22, 13, 57))
  {
    ParseDigits(stamp, DateTime(2025, 2, 6, 22, 13, 57));
  }

  /** A chat message read with its line break: `TrimEnd('\n')` removes it. */
  lemma ChatTestMessage(message: string)
    requires message == "biraz garip geliyor\n"
    ensures TrimEnd(message, {'\n'}) == "biraz garip geliyor"
  {
    var m := "biraz garip geliyor";
    assert message == m + ['\n'];
    TrimEndDrop(m, '\n', {'\n'});
    TrimEndNoop(m, {'\n'});
  }

  /** The chat line of the unit test, for its timestamp and player, whatever the message. */
  lemma ChatTestPlayer(line: string, stamp: string, message: string)
    requires ParseExact(stamp) == Some(DateTime(2025, 2, 6, 19, 12, 49))
    requires line == stamp + " [CHAT] " + "McRay" + ": " + message
    ensures ParseLog(line) == Recognized(GameEvent(line, DateTime(2025, 2, 6, 19, 12, 49), "McRay",
                                                   ChatMessage(TrimEnd(message, {'\n'}))))
  {
    assert ' ' !in "McRay";
    TrimEndNoop("McRay", {':'});
    ChatLine(stamp, DateTime(2025, 2, 6, 19, 12, 49), "McRay", message);
  }

  /** The chat line of the repository's own unit test (written with a trailing newline). */
  lemma ParseChatTestLine(line: string)
    requires line == "[2025.02.06-19.12.49]" + " [CHAT] " + "McRay" + ": " + "biraz garip geliyor\n"
    ensures ParseLog(line) == Recognized(GameEvent(line, DateTime(2025, 2, 6, 19, 12, 49), "McRay",
                                                   ChatMessage("biraz garip geliyor")))
  {
    var stamp, message := "[2025.02.06-19.12.49]", "biraz garip geliyor\n";
    ChatTestStamp(stamp);
    ChatTestPlayer(line, stamp, message);
    ChatTestMessage(message);
  }

  /** With the constructor as written, the unit test's chat line yields an event whose
      `Message` is `null` rather than the `biraz garip geliyor` the test expects, even
      though `ParseLog` computes that text and hands it to the constructor. */
  lemma ChatMessageLostAsWritten(line: string)
    requires line == "[2025.02.06-19.12.49]" + " [CHAT] " + "McRay" + ": " + "biraz garip geliyor\n"
    ensures ParseLog(line).Recognized?
    ensures var e := ParseLog(line).event;
            e.kind.ChatMessage?
            && e.kind.message == "biraz garip geliyor"
            && NewChatMessageEventAsWritten(e.text, e.timeStamp, e.player, e.kind.message).message
               != Some("biraz garip geliyor")
  {
    ParseChatTestLine(line);
  }

  /** The login line of the repository's own unit test. */
  lemma ParseLoginTestLine(line: string)
    requires line == "[2025.02.06-17.12.35]" + " Player Login: " + "McRay" + " (" + "76561197997411952" + ")"
    ensures ParseLog(line) == Recognized(GameEvent(line, DateTime(2025, 2, 6, 17, 12, 35), "McRay",
                                                   Session(true, "76561197997411952")))
  {
    var stamp := "[2025.02.06-17.12.35]";
    var id := "76561197997411952";
    assert ' ' !in id && '(' !in id && ')' !in id;
    assert ' ' !in "McRay";
    LoginTestStamp(stamp);
    LoginLine(stamp, DateTime(2025, 2, 6, 17, 12, 35), "McRay", id);
  }

  /** The logout line of the repository's own unit test. */
  lemma ParseLogoutTestLine(line: string)
    requires line == "[2025.02.06-22.13.57]" + " Player Logout: " + "McRay"
    ensures ParseLog(line) == Recognized(GameEvent(line, DateTime(2025, 2, 6, 22, 13, 57), "McRay",
                                                   Session(false, "")))
  {
    var stamp := "[2025.02.06-22.13.57]";
    assert ' ' !in "McRay";
    LogoutTestStamp(stamp);
    LogoutLine(stamp, DateTime(2025, 2, 6, 22, 13, 57), "McRay");
  }

  /** The ban line of the repository's own unit test. */
  lemma ParseBanTestLine(line: string)
    requires line == "[2025.02.06-22.13.57]" + " [ADMIN] " + "Arend" + " " + "BAN" + " " + "McRay"
    ensures ParseLog(line) == Recognized(GameEvent(line, DateTime(2025, 2, 6, 22, 13, 57), "McRay", Ban("Arend")))
  {
    var stamp := "[2025.02.06-22.13.57]";
    assert ' ' !in "Arend" && ' ' !in "BAN" && ' ' !in "McRay";
    LogoutTestStamp(stamp);
    AdminLine(stamp, DateTime(2025, 2, 6, 22, 13, 57), "Arend", "BAN", "McRay");
  }

  /** A line both bots recognise gives the older bot the current event less the fields
      the older events lack. */
  lemma LegacyRecognizes(line: string, e: GameEvent)
    requires ParseLog(line) == Recognized(e)
    ensures LegacyParseLog(line) == LegacyRecognized(Forget(e))
  {
    LegacyParseAgrees(line);
  }

  /** The older bot's unit tests: its `ParseLog` classifies the same lines alike, and its
      chat event keeps the message. */
  lemma LegacyParseChatTestLine(line: string)
    requires line == "[2025.02.06-19.12.49]" + " [CHAT] " + "McRay" + ": " + "biraz garip geliyor\n"
    ensures LegacyParseLog(line)
            == LegacyRecognized(LegacyEvent(DateTime(2025, 2, 6, 19, 12, 49), "McRay", LegacyChat("biraz garip geliyor")))
  {
    ParseChatTestLine(line);
    LegacyRecognizes(line, ParseLog(line).event);
  }

  lemma LegacyParseLoginTestLine(line: string)
    requires line == "[2025.02.06-17.12.35]" + " Player Login: " + "McRay" + " (" + "76561197997411952" + ")"
    ensures LegacyParseLog(line) == LegacyRecognized(LegacyEvent(DateTime(2025, 2, 6, 17, 12, 35), "McRay", LegacySession(true)))
  {
    ParseLoginTestLine(line);
    LegacyRecognizes(line, ParseLog(line).event);
  }

  lemma LegacyParseLogoutTestLine(line: string)
    requires line == "[2025.02.06-22.13.57]" + " Player Logout: " + "McRay"
    ensures LegacyParseLog(line) == LegacyRecognized(LegacyEvent(DateTime(2025, 2, 6, 22, 13, 57), "McRay", LegacySession(false)))
  {
    ParseLogoutTestLine(line);
    LegacyRecognizes(line, ParseLog(line).event);
  }

  lemma LegacyParseBanTestLine(line: string)
    requires line == "[2025.02.06-22.13.57]" + " [ADMIN] " + "Arend" + " " + "BAN" + " " + "McRay"
    ensures LegacyParseLog(line) == LegacyRecognized(LegacyEvent(DateTime(2025, 2, 6, 22, 13, 57), "McRay", LegacyBan("Arend")))
  {
    ParseBanTestLine(line);
    LegacyRecognizes(line, ParseLog(line).event);
  }
}
