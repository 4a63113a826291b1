// Classes of characters, spelled out.

module Characters {
  lemma DigitsSpelled(c: char)
    ensures '0' <= c <= '9' <==> c in "0123456789"
  {
  }

  lemma LettersSpelled(c: char)
    ensures 'a' <= c <= 'z' <==> c in "abcdefghijklmnopqrstuvwxyz"
    ensures 'A' <= c <= 'Z' <==> c in "ABCDEFGHIJKLMNOPQRSTUVWXYZ"
  {
  }

  lemma InJoined(c: char, x: string, y: string)
    ensures c in x + y <==> c in x || c in y
  {
  }

  /** Letters and what else a class has. */
  lemma AlphabetSpelled(c: char, more: string)
    ensures c in "ABCDEFGHIJKLMNOPQRSTUVWXYZabcdefghijklmnopqrstuvwxyz" + more <==>
      'A' <= c <= 'Z' || 'a' <= c <= 'z' || c in more
  {
    LettersSpelled(c);
    InJoined(c, "ABCDEFGHIJKLMNOPQRSTUVWXYZabcdefghijklmnopqrstuvwxyz", more);
    InJoined(c, "ABCDEFGHIJKLMNOPQRSTUVWXYZ", "abcdefghijklmnopqrstuvwxyz");
  }

  /** Small letters, digits and what else a class has. */
  lemma SmallSpelled(c: char, more: string)
    ensures c in "abcdefghijklmnopqrstuvwxyz0123456789" + more <==>
      'a' <= c <= 'z' || '0' <= c <= '9' || c in more
  {
    LettersSpelled(c);
    DigitsSpelled(c);
    InJoined(c, "abcdefghijklmnopqrstuvwxyz0123456789", more);
    InJoined(c, "abcdefghijklmnopqrstuvwxyz", "0123456789");
  }

  /** Letters, digits and what else a class has. */
  lemma AlphanumericSpelled(c: char, more: string)
    ensures c in "ABCDEFGHIJKLMNOPQRSTUVWXYZabcdefghijklmnopqrstuvwxyz0123456789" + more <==>
      'A' <= c <= 'Z' || 'a' <= c <= 'z' || '0' <= c <= '9' || c in more
  {
    LettersSpelled(c);
    SmallSpelled(c, "");
    InJoined(c, "ABCDEFGHIJKLMNOPQRSTUVWXYZabcdefghijklmnopqrstuvwxyz0123456789", more);
    InJoined(c, "ABCDEFGHIJKLMNOPQRSTUVWXYZ", "abcdefghijklmnopqrstuvwxyz0123456789" + "");
  }
}
