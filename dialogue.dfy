/** DialogueManager: shows an NPC's lines one at a time, typing each line
    out a character at a time. The typing coroutine is alive exactly while
    `isTyping` holds: it sets the flag first and clears it last, and the
    manager clears it whenever it stops the coroutine. One resumption of the
    coroutine is the method TypeStep. */
module Dialogue {

  class DialogueManager {
    var panelActive: bool
    var nameText: string
    var dialogueText: string
    var dialogues: seq<string>
    var currentIndex: int
    var isTyping: bool
    var currentFullText: string
    var timeScale: real

    /** The index never runs past the lines, and the text on screen is
        always the start of the current line. */
    ghost predicate Valid()
      reads this
    {
      0 <= currentIndex <= |dialogues| && dialogueText <= currentFullText
    }

    /** DialogueManager.Awake: the panel starts hidden. */
    constructor ()
      ensures Valid() && !panelActive && !isTyping && timeScale == 1.0
    {
      panelActive := false;
      nameText := "";
      dialogueText := "";
      dialogues := [];
      currentIndex := 0;
      isTyping := false;
      currentFullText := "";
      timeScale := 1.0;
    }

    /** DialogueManager.StartDialogue: pauses the game, opens the panel and
        shows the first line. Called while a line is still being typed, it
        finishes that line instead, as ShowNextDialogue does. */
    method StartDialogue(npcName: string, lines: seq<string>)
      requires Valid()
      modifies this
      ensures Valid()
      ensures nameText == npcName && dialogues == lines
      ensures old(isTyping) || |lines| > 0 ==> timeScale == 0.0 && panelActive
      ensures !old(isTyping) && |lines| == 0 ==>
        && timeScale == 1.0 && !panelActive && !isTyping
        && currentIndex == 0 && currentFullText == old(currentFullText) && dialogueText == old(dialogueText)
      ensures old(isTyping) ==>
        currentIndex == 0 && !isTyping && dialogueText == currentFullText && currentFullText == old(currentFullText)
      ensures !old(isTyping) && |lines| > 0 ==>
        && currentIndex == 1 && currentFullText == lines[0]
        && (isTyping <==> |lines[0]| > 0) && dialogueText == lines[0][..if |lines[0]| > 0 then 1 else 0]
    {
      timeScale := 0.0;
      panelActive := true;
      nameText := npcName;
      dialogues := lines;
      currentIndex := 0;
      ShowNextDialogue();
    }

    /** DialogueManager.ShowNextDialogue: finishes the line being typed; or
        starts typing the next line and moves past it; or, with no line
        left, ends the dialogue. */
    method ShowNextDialogue()
      requires Valid()
      modifies this`currentFullText, this`currentIndex, this`isTyping, this`dialogueText, this`panelActive, this`timeScale
      ensures Valid()
      ensures old(isTyping) ==>
        && currentIndex == old(currentIndex) && currentFullText == old(currentFullText)
        && dialogueText == currentFullText && !isTyping
        && panelActive == old(panelActive) && timeScale == old(timeScale)
      ensures !old(isTyping) && old(currentIndex) < |dialogues| ==>
        && currentIndex == old(currentIndex) + 1 && currentFullText == dialogues[old(currentIndex)]
        && (isTyping <==> |currentFullText| > 0)
        && dialogueText == currentFullText[..if |currentFullText| > 0 then 1 else 0]
        && panelActive == old(panelActive) && timeScale == old(timeScale)
      ensures !old(isTyping) && old(currentIndex) >= |dialogues| ==>
        && currentIndex == old(currentIndex) && currentFullText == old(currentFullText)
        && dialogueText == old(dialogueText)
        && !isTyping && !panelActive && timeScale == 1.0
    {
      if isTyping {
        CompleteTyping();
        return;
      }
      if currentIndex < |dialogues| {
        currentFullText := dialogues[currentIndex];
        TypeText();
        currentIndex := currentIndex + 1;
      } else {
        EndDialogue();
      }
    }

    /** DialogueManager.EndDialogue: stops the typing, closes the panel and
        resumes the game. */
    method EndDialogue()
      modifies this`isTyping, this`panelActive, this`timeScale
      ensures !isTyping && !panelActive && timeScale == 1.0
    {
      isTyping := false;
      panelActive := false;
      timeScale := 1.0;
    }

    /** StartCoroutine(TypeText(currentFullText)) up to the coroutine's first
        wait: the text is emptied and its first character, if any, shown. */
    method TypeText()
      modifies this`isTyping, this`dialogueText
      ensures dialogueText == currentFullText[..if |currentFullText| > 0 then 1 else 0]
      ensures isTyping <==> |currentFullText| > 0
    {
      isTyping := true;
      dialogueText := "";
      TypeStep();
    }

    /** One resumption of the TypeText coroutine: the next character of the
        line appears; or, once all of them are there, the coroutine ends. */
    method TypeStep()
      requires isTyping && dialogueText <= currentFullText
      modifies this`isTyping, this`dialogueText
      ensures dialogueText <= currentFullText
      ensures |old(dialogueText)| < |currentFullText| ==>
        dialogueText == currentFullText[..|old(dialogueText)| + 1] && isTyping
      ensures |old(dialogueText)| == |currentFullText| ==>
        dialogueText == currentFullText && !isTyping
    {
      var i := |dialogueText|;
      if i < |currentFullText| {
        assert currentFullText[..i] == dialogueText;
        dialogueText := dialogueText + [currentFullText[i]];
      } else {
        isTyping := false;
      }
    }

    /** The TypeText coroutine's loop, resumed until it ends: the text on
        screen stays the start of the line and grows to all of it. */
    method TypeToEnd()
      requires isTyping && dialogueText <= currentFullText
      modifies this`isTyping, this`dialogueText
      ensures dialogueText == currentFullText && !isTyping
    {
      while isTyping
        invariant dialogueText <= currentFullText
        invariant !isTyping ==> dialogueText == currentFullText
        decreases |currentFullText| - |dialogueText|, isTyping
      {
        TypeStep();
      }
    }

    /** DialogueManager.CompleteTyping: stops the typing and shows the whole
        line. */
    method CompleteTyping()
      modifies this`isTyping, this`dialogueText
      ensures dialogueText == currentFullText && !isTyping
    {
      dialogueText := currentFullText;
      isTyping := false;
    }
  }
}
