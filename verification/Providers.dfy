/** The gateway's providers and their names. */
module Providers {
  import opened Options

  datatype Provider =
    | OpenAi | Anthropic | Google | Bedrock | Theta | ThetaDedicated | DeepSeek | Xai | Mistral | Groq
    | Together | Fireworks | Perplexity | Cohere | OpenRouter | Cerebras | DeepInfra | Alibaba | Nvidia
    | Ai21 | SambaNova | Lambda | Lepton | Hyperbolic | OvhCloud | Novita | HuggingFace | Cloudflare
    | AzureOpenAi | VertexAi

  function AsStr(p: Provider): string {
    match p
    case OpenAi => "openai"
    case Anthropic => "anthropic"
    case Google => "google"
    case Bedrock => "bedrock"
    case Theta => "theta"
    case ThetaDedicated => "theta-dedicated"
    case DeepSeek => "deepseek"
    case Xai => "x-ai"
    case Mistral => "mistralai"
    case Groq => "groq"
    case Together => "together"
    case Fireworks => "fireworks"
    case Perplexity => "perplexity"
    case Cohere => "cohere"
    case OpenRouter => "openrouter"
    case Cerebras => "cerebras"
    case DeepInfra => "deepinfra"
    case Alibaba => "qwen"
    case Nvidia => "nvidia"
    case Ai21 => "ai21"
    case SambaNova => "sambanova"
    case Lambda => "lambda"
    case Lepton => "lepton"
    case Hyperbolic => "hyperbolic"
    case OvhCloud => "ovhcloud"
    case Novita => "novita"
    case HuggingFace => "huggingface"
    case Cloudflare => "cloudflare"
    case AzureOpenAi => "azure-openai"
    case VertexAi => "vertex-ai"
  }

  /** `FromStr`. */
  function Parse(s: string): Option<Provider> {
    match s
    case "openai" => Some(OpenAi)
    case "anthropic" => Some(Anthropic)
    case "google" => Some(Google)
    case "bedrock" => Some(Bedrock)
    case "theta" => Some(Theta)
    case "theta-dedicated" => Some(ThetaDedicated)
    case "deepseek" => Some(DeepSeek)
    case "x-ai" => Some(Xai)
    case "mistralai" => Some(Mistral)
    case "groq" => Some(Groq)
    case "together" => Some(Together)
    case "fireworks" => Some(Fireworks)
    case "perplexity" => Some(Perplexity)
    case "cohere" => Some(Cohere)
    case "openrouter" => Some(OpenRouter)
    case "cerebras" => Some(Cerebras)
    case "deepinfra" => Some(DeepInfra)
    case "qwen" => Some(Alibaba)
    case "nvidia" => Some(Nvidia)
    case "ai21" => Some(Ai21)
    case "sambanova" => Some(SambaNova)
    case "lambda" => Some(Lambda)
    case "lepton" => Some(Lepton)
    case "hyperbolic" => Some(Hyperbolic)
    case "ovhcloud" => Some(OvhCloud)
    case "novita" => Some(Novita)
    case "huggingface" => Some(HuggingFace)
    case "cloudflare" => Some(Cloudflare)
    case "azure-openai" => Some(AzureOpenAi)
    case "vertex-ai" => Some(VertexAi)
    case _ => None
  }

  lemma ParsedName(s: string)
    requires Parse(s).Some?
    ensures s == AsStr(Parse(s).value)
  {
  }

  lemma NameParses(p: Provider)
    ensures Parse(AsStr(p)) == Some(p)
  {
  }

  /** The two tables are inverse to each other. */
  lemma ParseAsStr(p: Provider, s: string)
    ensures Parse(s) == Some(p) <==> s == AsStr(p)
  {
    NameParses(p);
    if Parse(s) == Some(p) {
      ParsedName(s);
    }
  }
}
