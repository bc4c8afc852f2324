/**
 * The two question catalogs of the application. The results page (app/results/page.tsx)
 * counts answers for four blocks of questions with ids "q1".."q26"; the survey page
 * (app/survey/page.tsx) asks four blocks of questions with ids "01".."25".
 */
module Catalog {

  datatype Question = Question(id: string, text: string)

  /** A block of the results catalog, keyed by a block id such as "bloco1". */
  datatype ResultsBlock = ResultsBlock(id: string, title: string, questions: seq<Question>)

  /** A block (one page) of the survey form; it has a title but no id. */
  datatype SurveyBlock = SurveyBlock(title: string, questions: seq<Question>)

  /** The `surveyBlocks` constant of the results page. */
  const ResultsBlocks: seq<ResultsBlock> := [
    ResultsBlock("bloco1", "Bloco 01: Como eu me vejo", [
      Question("q1", "Sou capaz de desenvolver as habilidades exigidas pelo curso."),
      Question("q2", "Costumo duvidar da qualidade dos meus projetos em comparação com os dos colegas."),
      Question("q3", "Quando recebo críticas nos, sou capaz de usá-las de forma construtiva."),
      Question("q4", "Sou impedido de arriscar ideias novas nos projetos por medo de errar."),
      Question("q5", "Sou emocionalmente afetado(a) por críticas negativas no geral."),
      Question("q6", "Acho que as coisas têm que ser como penso, do contrário isso me afeta.")
    ]),
    ResultsBlock("bloco2", "Bloco 02: Como eu vejo o mundo", [
      Question("q7", "O esforço e dedicação sempre resultam em sucesso."),
      Question("q8", "O aprendizado é um processo contínuo e posso melhorar ao longo do tempo."),
      Question("q9", "Os desafios acadêmicos fazem parte do meu crescimento pessoal."),
      Question("q10", "O ambiente acadêmico é competitivo e difícil de lidar."),
      Question("q11", "O fracasso em um projeto reflete diretamente minha capacidade.")
    ]),
    ResultsBlock("bloco3", "Bloco 03: Como eu vejo as pessoas e o futuro", [
      Question("q12", "Os professores e colegas estão dispostos a me ajudar em meu desenvolvimento acadêmico."),
      Question("q13", "As críticas feitas pelos professores e colegas são justas e ajudam no meu aprendizado."),
      Question("q14", "Comparar meu trabalho com o dos outros me causa insegurança."),
      Question("q15", "Os feedbacks que recebo são construtivos e ajudam no meu desenvolvimento."),
      Question("q16", "Trabalhar em equipe me deixa desconfortável."),
      Question("q17", "Me vejo atuando como futuro Arquiteto(a)."),
      Question("q18", "Consigo passar pelos desafios comuns a um estudante de arquitetura."),
      Question("q19", "Estou disposto a aprender coisas novas e fora da minha área de conforto ao longo do meu caminho profissional."),
      Question("q20", "Acredito que na jornada da vida temos que aprender diferentes perspectivas e orientações.")
    ]),
    ResultsBlock("bloco4", "Bloco 04: Universidade", [
      Question("q21", "A universidade fornece suporte adequado para meu desenvolvimento acadêmico e emocional."),
      Question("q22", "A carga horária e os prazos estabelecidos pela universidade são realistas."),
      Question("q23", "O curso está alinhado com minhas expectativas profissionais e acadêmicas."),
      Question("q24", "O suporte da instituição é suficiente para meu aprendizado."),
      Question("q25", "A estrutura da universidade favorece meu desempenho acadêmico."),
      Question("q26", "Estou aberto a mudanças e o que pode me fazer bem.")
    ])
  ]

  /** The `surveyBlocks` constant of the survey page. */
  const SurveyBlocks: seq<SurveyBlock> := [
    SurveyBlock("Como eu me vejo", [
      Question("01", "Sou capaz de desenvolver as habilidades exigidas pela empresa."),
      Question("02", "Costumo duvidar da qualidade das tarefas confiadas a mim em comparação com as confiadas aos colegas."),
      Question("03", "Quando recebo críticas nos projetos, sou capaz de usá-las de forma construtiva."),
      Question("04", "Sou capaz de melhorar meu desempenho profissional com esforço e novas estratégias."),
      Question("05", "Sou impedido de arriscar ideias novas nos campo de atuação por medo de errar."),
      Question("06", "Sou ansioso(a) ou estressado(a) devido à carga de trabalho."),
      Question("07", "Fico nervoso(a) ao apresentar meus projetos para coordenadores e colegas."),
      Question("08", "Sou motivado(a) e sinto prazer ao desenvolver tarefas criativas."),
      Question("09", "Sou emocionalmente afetado(a) por críticas negativas."),
      Question("10", "Sou capaz de equilibrar minha vida profissional e minha vida pessoal.")
    ]),
    SurveyBlock("Como eu vejo o mundo", [
      Question("11", "O mundo profissional é um ambiente justo."),
      Question("12", "O esforço e dedicação sempre resultam em sucesso profissional."),
      Question("13", "O fracasso em um projeto é um reflexo direto da minha capacidade."),
      Question("14", "O aprendizado é um processo contínuo e posso melhorar ao longo do tempo."),
      Question("15", "Os desafios profissionais fazem parte do meu crescimento pessoal.")
    ]),
    SurveyBlock("Como eu vejo as pessoas", [
      Question("16", "Os meus colegas estão dispostos a me ajudar em meu desenvolvimento profissional."),
      Question("17", "As críticas feitas pelas outras pessoas são justas e ajudam no meu aprendizado."),
      Question("18", " As pessoas ao meu redor me veem como um profissional competente."),
      Question("19", "Ao comparar meu trabalho ao dos outros, me sinto inseguro(a)"),
      Question("20", " Os feedbacks que recebo são construtivos e ajudam no meu desenvolvimento.")
    ]),
    SurveyBlock("Empresa", [
      Question("21", "A empresa fornece suporte adequado para meu desenvolvimento profissional e emocional."),
      Question("22", " O ambiente de trabalho é acolhedor e estimula meu crescimento profissional."),
      Question("23", "A carga horária e os prazos estabelecidos pela empresa são realistas."),
      Question("24", " A empresa oferece oportunidades suficientes para práticas e aplicações do conhecimento."),
      Question("25", "As tarefas estabelecidas estão alinhadas com minhas expectativas profissionais e pessoais.")
    ])
  ]
  function ResultsBlockIds(): (ids: seq<string>)
    ensures |ids| == |ResultsBlocks|
    ensures forall i :: 0 <= i < |ids| ==> ids[i] == ResultsBlocks[i].id
  {
    seq(|ResultsBlocks|, i requires 0 <= i < |ResultsBlocks| => ResultsBlocks[i].id)
  }

  /** The results catalog has the block ids "bloco1".."bloco4" and 6, 5, 9 and 6 questions. */
  lemma ResultsCatalogShape()
    ensures ResultsBlockIds() == ["bloco1", "bloco2", "bloco3", "bloco4"]
    ensures |ResultsBlocks[0].questions| == 6 && |ResultsBlocks[1].questions| == 5
    ensures |ResultsBlocks[2].questions| == 9 && |ResultsBlocks[3].questions| == 6
  {
  }

  /** Every question id of the results catalog is "q" followed by a number. */
  lemma ResultsIdsStartWithQ()
    ensures forall i, j :: 0 <= i < |ResultsBlocks| && 0 <= j < |ResultsBlocks[i].questions| ==>
      |ResultsBlocks[i].questions[j].id| >= 2 && ResultsBlocks[i].questions[j].id[0] == 'q'
  {
    forall i, j | 0 <= i < |ResultsBlocks| && 0 <= j < |ResultsBlocks[i].questions|
      ensures |ResultsBlocks[i].questions[j].id| >= 2 && ResultsBlocks[i].questions[j].id[0] == 'q'
    {
      var qs := ResultsBlocks[i].questions;
      if i == 0 { assert qs == ResultsBlocks[0].questions; }
    }
  }

  /** Every question id of the survey form is two decimal digits. */
  lemma SurveyIdsAreDigits()
    ensures forall i, j :: 0 <= i < |SurveyBlocks| && 0 <= j < |SurveyBlocks[i].questions| ==>
      |SurveyBlocks[i].questions[j].id| == 2 && '0' <= SurveyBlocks[i].questions[j].id[0] <= '9'
  {
  }

  /** The survey form has 4 blocks of 10, 5, 5 and 5 questions. */
  lemma SurveyCatalogShape()
    ensures |SurveyBlocks| == 4
    ensures |SurveyBlocks[0].questions| == 10 && |SurveyBlocks[1].questions| == 5
    ensures |SurveyBlocks[2].questions| == 5 && |SurveyBlocks[3].questions| == 5
  {
  }
}
