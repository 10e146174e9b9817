/** Single facts about the texts of the filter's specification examples: whether
    one text occurs in another, ignoring case. Each is proved on its own, so that
    the replays that combine several of them stay small. */
module ScenarioTexts {
  import opened Values
  import opened Comparison
  import opened ReplayKit


  lemma AHasA()
    ensures Substring(Str("a"), Str("a"))
  {
    TextFound("a", "a", 0);
  }

  lemma ALacksB()
    ensures !Substring(Str("a"), Str("b"))
  {
    TextMissing("a", "b", 0);
  }

  lemma AbcHasA()
    ensures Substring(Str("abc"), Str("a"))
  {
    TextFound("abc", "a", 0);
  }

  lemma AbcHasB()
    ensures Substring(Str("abc"), Str("b"))
  {
    TextFound("abc", "b", 1);
  }

  lemma AbronsLacksHevery()
    ensures !Substring(Str("abrons"), Str("hevery"))
  {
    TextMissing("abrons", "hevery", 0);
  }

  lemma AdamHasA()
    ensures Substring(Str("adam"), Str("a"))
  {
    TextFound("adam", "a", 0);
  }

  lemma AdamHasAdam()
    ensures Substring(Str("adam"), Str("adam"))
  {
    TextFound("adam", "adam", 0);
  }

  lemma AdamHasDa()
    ensures Substring(Str("adam"), Str("da"))
  {
    TextFound("adam", "da", 1);
  }

  lemma AdamLacks10()
    ensures !Substring(Str("adam"), Str("10"))
  {
    TextMissing("adam", "10", 0);
  }

  lemma AdamLacks34()
    ensures !Substring(Str("adam"), Str("34"))
  {
    TextMissing("adam", "34", 0);
  }

  lemma AdamLacksIDonTExist()
    ensures !Substring(Str("adam"), Str("I don't exist"))
  {
    TextMissing("adam", "I don't exist", 1);
  }

  lemma AdamLacksISk()
    ensures !Substring(Str("adam"), Str("iSk"))
  {
    TextMissing("adam", "iSk", 0);
  }

  lemma AdamLacksIsk()
    ensures !Substring(Str("adam"), Str("isk"))
  {
    TextMissing("adam", "isk", 0);
  }

  lemma AdamLacksMisko()
    ensures !Substring(Str("adam"), Str("misko"))
  {
    TextMissing("adam", "misko", 2);
  }

  lemma AdamLacksYam()
    ensures !Substring(Str("adam"), Str("yam"))
  {
    TextMissing("adam", "yam", 0);
  }

  lemma AdamsonHasAdam()
    ensures Substring(Str("adamson"), Str("adam"))
  {
    TextFound("adamson", "adam", 0);
  }

  lemma AdminExampleComHasAdminExampleCom()
    ensures Substring(Str("admin@example.com"), Str("admin@example.com"))
  {
    TextSelf("admin@example.com");
  }

  lemma AdminExampleComLacksUserExampleCom()
    ensures !Substring(Str("admin@example.com"), Str("user@example.com"))
  {
    TextMissing("admin@example.com", "user@example.com", 0);
  }

  lemma AdminHasAdm()
    ensures Substring(Str("admin"), Str("adm"))
  {
    TextFound("admin", "adm", 0);
  }

  lemma AnnetExampleComLacksJoanExample()
    ensures !Substring(Str("annet@example.com"), Str("joan@example"))
  {
    TextMissing("annet@example.com", "joan@example", 0);
  }

  lemma AnnetExampleComLacksMe()
    ensures !Substring(Str("annet@example.com"), Str("me"))
  {
    TextMissingPair("annet@example.com", "me", 0);
  }

  lemma AnnetExampleComLacksMeJoan()
    ensures !Substring(Str("annet@example.com"), Str("me@joan"))
  {
    TextMissing("annet@example.com", "me@joan", 3);
  }

  lemma AnnetHasNet()
    ensures Substring(Str("Annet"), Str("net"))
  {
    TextFound("Annet", "net", 2);
  }

  lemma AnnetLacksJoanExample()
    ensures !Substring(Str("Annet"), Str("joan@example"))
  {
    TextMissing("Annet", "joan@example", 0);
  }

  lemma AnnetLacksMe()
    ensures !Substring(Str("Annet"), Str("me"))
  {
    TextMissing("Annet", "me", 0);
  }

  lemma AnnetLacksMeJoan()
    ensures !Substring(Str("Annet"), Str("me@joan"))
  {
    TextMissing("Annet", "me@joan", 3);
  }

  lemma BillyLacksJo()
    ensures !Substring(Str("Billy"), Str("Jo"))
  {
    TextMissing("Billy", "Jo", 0);
  }

  lemma BillyLacksJoanExample()
    ensures !Substring(Str("Billy"), Str("joan@example"))
  {
    TextMissing("Billy", "joan@example", 0);
  }

  lemma BillyLacksMeJoan()
    ensures !Substring(Str("Billy"), Str("me@joan"))
  {
    TextMissing("Billy", "me@joan", 3);
  }

  lemma BillyLacksNet()
    ensures !Substring(Str("Billy"), Str("net"))
  {
    TextMissing("Billy", "net", 0);
  }

  lemma ClarkHasA()
    ensures Substring(Str("clark"), Str("a"))
  {
    TextFound("clark", "a", 2);
  }

  lemma ClarkLacks10()
    ensures !Substring(Str("clark"), Str("10"))
  {
    TextMissing("clark", "10", 0);
  }

  lemma ClarkLacksFalse()
    ensures !Substring(Str("clark"), Str("false"))
  {
    TextMissing("clark", "false", 0);
  }

  lemma ClarkLacksHevery()
    ensures !Substring(Str("clark"), Str("hevery"))
  {
    TextMissing("clark", "hevery", 2);
  }

  lemma FalseLacks10()
    ensures !Substring(Str("false"), Str("10"))
  {
    TextMissing("false", "10", 0);
  }

  lemma GoodbyeHasOo()
    ensures Substring(Str("goodbye"), Str("oo"))
  {
    TextFound("goodbye", "oo", 1);
  }

  lemma GoodbyeLacksHello()
    ensures !Substring(Str("goodbye"), Str("hello"))
  {
    TextMissing("goodbye", "hello", 0);
  }

  lemma GoodbyeLacksLl()
    ensures !Substring(Str("goodbye"), Str("ll"))
  {
    TextMissing("goodbye", "ll", 0);
  }

  lemma HelloHasHello()
    ensures Substring(Str("hello"), Str("hello"))
  {
    TextFound("hello", "hello", 0);
  }

  lemma HelloHasLl()
    ensures Substring(Str("hello"), Str("ll"))
  {
    TextFound("hello", "ll", 2);
  }

  lemma HelloLacksOo()
    ensures !Substring(Str("hello"), Str("oo"))
  {
    TextMissingPair("hello", "oo", 0);
  }

  lemma HeveryHasHevery()
    ensures Substring(Str("hevery"), Str("hevery"))
  {
    TextFound("hevery", "hevery", 0);
  }

  lemma HeveryLacks10()
    ensures !Substring(Str("hevery"), Str("10"))
  {
    TextMissing("hevery", "10", 0);
  }

  lemma HeveryLacksA()
    ensures !Substring(Str("hevery"), Str("a"))
  {
    TextMissing("hevery", "a", 0);
  }

  lemma HeveryLacksFalse()
    ensures !Substring(Str("hevery"), Str("false"))
  {
    TextMissing("hevery", "false", 0);
  }

  lemma JoanExampleNetHasNet()
    ensures Substring(Str("joan@example.net"), Str("net"))
  {
    TextFound("joan@example.net", "net", 13);
  }

  lemma JoanExampleNetLacksExampleCom()
    ensures !Substring(Str("joan@example.net"), Str("example.com"))
  {
    TextMissing("joan@example.net", "example.com", 8);
  }

  lemma JoanExampleNetLacksMe()
    ensures !Substring(Str("joan@example.net"), Str("me"))
  {
    TextMissingPair("joan@example.net", "me", 0);
  }

  lemma JoanHasJo()
    ensures Substring(Str("Joan"), Str("Jo"))
  {
    TextFound("Joan", "Jo", 0);
  }

  lemma JoanLacksMe()
    ensures !Substring(Str("Joan"), Str("me"))
  {
    TextMissing("Joan", "me", 0);
  }

  lemma JohnExampleComHasExampleCom()
    ensures Substring(Str("john@example.com"), Str("example.com"))
  {
    TextFound("john@example.com", "example.com", 5);
  }

  lemma JohnExampleComLacksMe()
    ensures !Substring(Str("john@example.com"), Str("me"))
  {
    TextMissingPair("john@example.com", "me", 0);
  }

  lemma JohnExampleComLacksNet()
    ensures !Substring(Str("john@example.com"), Str("net"))
  {
    TextMissing("john@example.com", "net", 2);
  }

  lemma JohnHasJo()
    ensures Substring(Str("John"), Str("Jo"))
  {
    TextFound("John", "Jo", 0);
  }

  lemma JohnLacks10()
    ensures !Substring(Str("john"), Str("10"))
  {
    TextMissing("john", "10", 0);
  }

  lemma JohnLacksFalse()
    ensures !Substring(Str("john"), Str("false"))
  {
    TextMissing("john", "false", 0);
  }

  lemma JohnLacksHevery()
    ensures !Substring(Str("john"), Str("hevery"))
  {
    TextMissing("john", "hevery", 2);
  }

  lemma JohnLacksMe()
    ensures !Substring(Str("John"), Str("me"))
  {
    TextMissing("John", "me", 0);
  }

  lemma JohnLacksNet()
    ensures !Substring(Str("John"), Str("net"))
  {
    TextMissing("John", "net", 1);
  }

  lemma KittensLacksHello()
    ensures !Substring(Str("kittens"), Str("hello"))
  {
    TextMissing("kittens", "hello", 0);
  }

  lemma KittensLacksLl()
    ensures !Substring(Str("kittens"), Str("ll"))
  {
    TextMissing("kittens", "ll", 0);
  }

  lemma KittensLacksOo()
    ensures !Substring(Str("kittens"), Str("oo"))
  {
    TextMissing("kittens", "oo", 0);
  }

  lemma MIsKOHasISk()
    ensures Substring(Str("MIsKO"), Str("iSk"))
  {
    TextFound("MIsKO", "iSk", 1);
  }

  lemma MIsKOHasIsk()
    ensures Substring(Str("MIsKO"), Str("isk"))
  {
    TextFound("MIsKO", "isk", 1);
  }

  lemma MIsKOLacks34()
    ensures !Substring(Str("MIsKO"), Str("34"))
  {
    TextMissing("MIsKO", "34", 0);
  }

  lemma MIsKOLacksDa()
    ensures !Substring(Str("MIsKO"), Str("da"))
  {
    TextMissing("MIsKO", "da", 0);
  }

  lemma MIsKOLacksIDonTExist()
    ensures !Substring(Str("MIsKO"), Str("I don't exist"))
  {
    TextMissing("MIsKO", "I don't exist", 1);
  }

  lemma MIsKOLacksYam()
    ensures !Substring(Str("MIsKO"), Str("yam"))
  {
    TextMissing("MIsKO", "yam", 0);
  }

  lemma MaybeHasMaybe()
    ensures Substring(Str("maybe"), Str("maybe"))
  {
    TextFound("maybe", "maybe", 0);
  }

  lemma MaybeLacksPerhaps()
    ensures !Substring(Str("maybe"), Str("perhaps"))
  {
    TextMissing("maybe", "perhaps", 0);
  }

  lemma MeBillyComHasMe()
    ensures Substring(Str("me@billy.com"), Str("me"))
  {
    TextFound("me@billy.com", "me", 0);
  }

  lemma MeBillyComLacksJoanExample()
    ensures !Substring(Str("me@billy.com"), Str("joan@example"))
  {
    TextMissing("me@billy.com", "joan@example", 0);
  }

  lemma MeBillyComLacksMeJoan()
    ensures !Substring(Str("me@billy.com"), Str("me@joan"))
  {
    TextMissing("me@billy.com", "me@joan", 3);
  }

  lemma MeBillyComLacksNet()
    ensures !Substring(Str("me@billy.com"), Str("net"))
  {
    TextMissing("me@billy.com", "net", 0);
  }

  lemma MeJoanComHasMeJoan()
    ensures Substring(Str("me@joan.com"), Str("me@joan"))
  {
    TextFound("me@joan.com", "me@joan", 0);
  }

  lemma MiskoHasIsk()
    ensures Substring(Str("misko"), Str("isk"))
  {
    TextFound("misko", "isk", 1);
  }

  lemma MiskoHasMisko()
    ensures Substring(Str("misko"), Str("misko"))
  {
    TextFound("misko", "misko", 0);
  }

  lemma MiskoLacksAdam()
    ensures !Substring(Str("misko"), Str("adam"))
  {
    TextMissing("misko", "adam", 1);
  }

  lemma Number1234Has34()
    ensures Substring(Str("1234"), Str("34"))
  {
    TextFound("1234", "34", 2);
  }

  lemma Number1234LacksDa()
    ensures !Substring(Str("1234"), Str("da"))
  {
    TextMissing("1234", "da", 0);
  }

  lemma Number1234LacksIDonTExist()
    ensures !Substring(Str("1234"), Str("I don't exist"))
  {
    TextMissing("1234", "I don't exist", 1);
  }

  lemma Number1234LacksISk()
    ensures !Substring(Str("1234"), Str("iSk"))
  {
    TextMissing("1234", "iSk", 0);
  }

  lemma Number1234LacksIsk()
    ensures !Substring(Str("1234"), Str("isk"))
  {
    TextMissing("1234", "isk", 0);
  }

  lemma Number1234LacksYam()
    ensures !Substring(Str("1234"), Str("yam"))
  {
    TextMissing("1234", "yam", 0);
  }

  lemma Number1Has1()
    ensures Substring(Str("1"), Str("1"))
  {
    TextFound("1", "1", 0);
  }

  lemma Number1Lacks0()
    ensures !Substring(Str("1"), Str("0"))
  {
    TextMissing("1", "0", 0);
  }

  lemma Number2Lacks0()
    ensures !Substring(Str("2"), Str("0"))
  {
    TextMissing("2", "0", 0);
  }

  lemma Number2Lacks1()
    ensures !Substring(Str("2"), Str("1"))
  {
    TextMissing("2", "1", 0);
  }

  lemma PuppiesLacksHello()
    ensures !Substring(Str("puppies"), Str("hello"))
  {
    TextMissing("puppies", "hello", 0);
  }

  lemma PuppiesLacksLl()
    ensures !Substring(Str("puppies"), Str("ll"))
  {
    TextMissing("puppies", "ll", 0);
  }

  lemma PuppiesLacksOo()
    ensures !Substring(Str("puppies"), Str("oo"))
  {
    TextMissing("puppies", "oo", 0);
  }

  lemma RitaExampleComLacksMe()
    ensures !Substring(Str("rita@example.com"), Str("me"))
  {
    TextMissingPair("rita@example.com", "me", 0);
  }

  lemma RitaExampleComLacksNet()
    ensures !Substring(Str("rita@example.com"), Str("net"))
  {
    TextMissing("rita@example.com", "net", 0);
  }

  lemma RitaLacksJo()
    ensures !Substring(Str("Rita"), Str("Jo"))
  {
    TextMissing("Rita", "Jo", 0);
  }

  lemma RitaLacksMe()
    ensures !Substring(Str("Rita"), Str("me"))
  {
    TextMissing("Rita", "me", 0);
  }

  lemma RitaLacksNet()
    ensures !Substring(Str("Rita"), Str("net"))
  {
    TextMissing("Rita", "net", 0);
  }

  lemma ShyamHasYam()
    ensures Substring(Str("shyam"), Str("yam"))
  {
    TextFound("shyam", "yam", 2);
  }

  lemma ShyamLacks34()
    ensures !Substring(Str("shyam"), Str("34"))
  {
    TextMissing("shyam", "34", 0);
  }

  lemma ShyamLacksDa()
    ensures !Substring(Str("shyam"), Str("da"))
  {
    TextMissing("shyam", "da", 0);
  }

  lemma ShyamLacksIDonTExist()
    ensures !Substring(Str("shyam"), Str("I don't exist"))
  {
    TextMissing("shyam", "I don't exist", 1);
  }

  lemma ShyamLacksISk()
    ensures !Substring(Str("shyam"), Str("iSk"))
  {
    TextMissing("shyam", "iSk", 0);
  }

  lemma ShyamLacksIsk()
    ensures !Substring(Str("shyam"), Str("isk"))
  {
    TextMissing("shyam", "isk", 0);
  }

  lemma TomHasTom()
    ensures Substring(Str("tom"), Str("tom"))
  {
    TextFound("tom", "tom", 0);
  }

  lemma TomLacks10()
    ensures !Substring(Str("tom"), Str("10"))
  {
    TextMissing("tom", "10", 0);
  }

  lemma TomLacksA()
    ensures !Substring(Str("tom"), Str("a"))
  {
    TextMissing("tom", "a", 0);
  }

  lemma TomLacksFalse()
    ensures !Substring(Str("tom"), Str("false"))
  {
    TextMissing("tom", "false", 0);
  }

  lemma TommyHasTom()
    ensures Substring(Str("tommy"), Str("tom"))
  {
    TextFound("tommy", "tom", 0);
  }

  lemma TommyLacks10()
    ensures !Substring(Str("tommy"), Str("10"))
  {
    TextMissing("tommy", "10", 0);
  }

  lemma TommyLacksFalse()
    ensures !Substring(Str("tommy"), Str("false"))
  {
    TextMissing("tommy", "false", 0);
  }

  lemma TommyLacksHevery()
    ensures !Substring(Str("tommy"), Str("hevery"))
  {
    TextMissing("tommy", "hevery", 2);
  }

  lemma User1ExampleComHasUser()
    ensures Substring(Str("user1@example.com"), Str("user"))
  {
    TextFound("user1@example.com", "user", 0);
  }

  lemma User2ExampleComHasUser()
    ensures Substring(Str("user2@example.com"), Str("user"))
  {
    TextFound("user2@example.com", "user", 0);
  }

  lemma UserHasUs()
    ensures Substring(Str("user"), Str("us"))
  {
    TextFound("user", "us", 0);
  }

  lemma UserLacksAdm()
    ensures !Substring(Str("user"), Str("adm"))
  {
    TextMissing("user", "adm", 0);
  }
}
